/** The sheet/row/page loop of the spreadsheet-to-PDF converter: a renderer
    owns the document's pages and the vertical cursor, draws each sheet's title
    and rows, breaks pages on the cursor, and closes each page's table outline. */
module XlsxRender {
  import opened Text
  import opened Cells
  import opened Pdf
  import opened XlsxLayout

  /** Where a table row was drawn: on which page, from which position of that
      page's draw calls, with its top edge at `top`. */
  datatype Placement = Placement(page: nat, offset: nat, row: Row, widths: seq<real>, top: real, header: bool)

  /** The rows of a run of placements, in order. */
  function RowsOf(ps: seq<Placement>): seq<Row>
  {
    seq(|ps|, i requires 0 <= i < |ps| => ps[i].row)
  }

  /** All rows of a workbook, sheet after sheet. */
  function AllRows(sheets: seq<Sheet>): seq<Row>
  {
    if |sheets| == 0 then [] else AllRows(sheets[..|sheets| - 1]) + sheets[|sheets| - 1].data
  }

  /** The row's whole drawing sits as one contiguous block on its page, and
      its top lies between the break threshold and the top of the page. */
  ghost predicate PlacedIn(pages: seq<Page>, p: Placement, measure: string -> real)
  {
    && |p.row| <= |p.widths|
    && Margin + LineHeight <= p.top <= Top
    && BlockAt(pages, p.page, p.offset,
               RowOps(p.row, p.widths, p.top, RowHeight(p.row, p.widths, measure), p.header, measure))
  }

  ghost predicate AllPlaced(pages: seq<Page>, ps: seq<Placement>, measure: string -> real)
  {
    forall i {:trigger PlacedIn(pages, ps[i], measure)} :: 0 <= i < |ps| ==> PlacedIn(pages, ps[i], measure)
  }

  /** p's block is drawn before q's: on an earlier page, or on the same page
      and ending at or before the point where q's block starts. */
  predicate Precedes(p: Placement, q: Placement, measure: string -> real)
  {
    && |p.row| <= |p.widths|
    && (|| p.page < q.page
        || (p.page == q.page
            && p.offset + |RowOps(p.row, p.widths, p.top, RowHeight(p.row, p.widths, measure), p.header, measure)| <= q.offset))
  }

  /** The placements are listed in the order their blocks appear in the document. */
  predicate InDrawingOrder(ps: seq<Placement>, measure: string -> real)
  {
    forall i, j :: 0 <= i < j < |ps| ==> Precedes(ps[i], ps[j], measure)
  }

  /** A block started at the current end of the last page comes after every
      block already placed. */
  lemma OrderExtended(pages: seq<Page>, ps: seq<Placement>, p: Placement, measure: string -> real)
    requires |pages| > 0 && AllPlaced(pages, ps, measure) && InDrawingOrder(ps, measure)
    requires p.page == |pages| - 1 && p.offset == |pages[|pages| - 1]|
    ensures InDrawingOrder(ps + [p], measure)
  {
    var all := ps + [p];
    forall i, j | 0 <= i < j < |all| ensures Precedes(all[i], all[j], measure) {
      if j < |ps| {
        assert all[i] == ps[i] && all[j] == ps[j];
      } else {
        assert all[i] == ps[i] && all[j] == p;
        assert PlacedIn(pages, ps[i], measure);
      }
    }
  }

  lemma PlacementsKept(before: seq<Page>, after: seq<Page>, ps: seq<Placement>, measure: string -> real)
    requires Extends(before, after) && AllPlaced(before, ps, measure)
    ensures AllPlaced(after, ps, measure)
  {
    forall i | 0 <= i < |ps| ensures PlacedIn(after, ps[i], measure) {
      var p := ps[i];
      assert PlacedIn(before, p, measure);
      BlockKept(before, after, p.page, p.offset,
                RowOps(p.row, p.widths, p.top, RowHeight(p.row, p.widths, measure), p.header, measure));
    }
  }

  /** The outline drawn when a table ends or breaks: a frame at the left
      margin as wide as the columns, whose top edge is `tableStartY` and whose
      height is `tableStartY` less the distance from the cursor to the top of
      the page. Its bottom edge therefore sits at `height - yPosition`, which
      is the cursor only when the cursor is halfway down the page. */
  function TableBorder(tableStartY: real, yPosition: real, totalTableWidth: real): (r: DrawOp)
    ensures r.Frame? && r.x == Margin && r.width == totalTableWidth
    ensures r.y + r.height == tableStartY
    ensures r.y == PageHeight - yPosition
    ensures r.y == yPosition <==> yPosition * 2.0 == PageHeight
  {
    var h := tableStartY - (PageHeight - yPosition);
    Frame(Margin, tableStartY - h, totalTableWidth, h)
  }

  /** The sheet title: bold, four points larger than the table text. */
  function TitleOp(name: string, y: real): (r: DrawOp)
    ensures r.Text? && r.text == name && r.x == Margin && r.y == y
    ensures r.font == HelveticaBold && r.size == 14.0
  {
    Text(name, Margin, y, FontSize + 4.0, HelveticaBold)
  }

  /** Where a row's top ends up: on a fresh page when the cursor is below the
      break threshold, at the cursor otherwise. */
  function RowTop(yPosition: real): real
  {
    if yPosition < Margin + LineHeight then Top else yPosition
  }

  /** The title's top: the top of a fresh page when the cursor is below
      `margin + 4 * fontSize`, the cursor otherwise. */
  function TitleTop(y: real): real
  {
    if y < Margin + FontSize * 4.0 then Top else y
  }

  /** The title drawn from cursor y sits alone as a block: first on the page
      added after `before`, or at the end of `before`'s last page. */
  ghost predicate TitleAt(pages: seq<Page>, before: seq<Page>, name: string, y: real)
    requires |before| > 0
  {
    if y < Margin + FontSize * 4.0 then BlockAt(pages, |before|, 0, [TitleOp(name, Top)])
    else BlockAt(pages, |before| - 1, |before[|before| - 1]|, [TitleOp(name, y)])
  }

  lemma TitleKept(before: seq<Page>, titled: seq<Page>, after: seq<Page>, name: string, y: real)
    requires |before| > 0 && TitleAt(titled, before, name, y) && Extends(titled, after)
    ensures TitleAt(after, before, name, y)
  {
    if y < Margin + FontSize * 4.0 {
      BlockKept(titled, after, |before|, 0, [TitleOp(name, Top)]);
    } else {
      BlockKept(titled, after, |before| - 1, |before[|before| - 1]|, [TitleOp(name, y)]);
    }
  }

  /** The last draw call of the document is op. */
  predicate EndsWith(pages: seq<Page>, op: DrawOp)
  {
    |pages| > 0 && |pages[|pages| - 1]| > 0 && pages[|pages| - 1][|pages[|pages| - 1]| - 1] == op
  }

  /** Every row has a width for each of its cells. */
  predicate RowsFit(data: seq<Row>, widths: seq<real>)
  {
    forall i :: 0 <= i < |data| ==> |data[i]| <= |widths|
  }

  /** The table loop's two cursors: `yPosition` and `tableStartY`. */
  datatype Cursor = Cursor(y: real, tableStartY: real)

  /** Where one row leaves the cursors: a page break first resets both to the
      top, then the cursor drops by the row height, 2 more after the header. */
  function RowCursor(c: Cursor, row: Row, isHeader: bool, widths: seq<real>, measure: string -> real): Cursor
    requires |row| <= |widths|
  {
    Cursor(RowTop(c.y) - RowHeight(row, widths, measure) - (if isHeader then 2.0 else 0.0),
           if c.y < Margin + LineHeight then Top else c.tableStartY)
  }

  /** Where the first k rows of a table leave the cursors, row 0 being the header. */
  function TableCursor(c: Cursor, data: seq<Row>, k: nat, widths: seq<real>, measure: string -> real): Cursor
    requires k <= |data| && RowsFit(data, widths)
    decreases k
  {
    if k == 0 then c
    else RowCursor(TableCursor(c, data, k - 1, widths, measure), data[k - 1], k == 1, widths, measure)
  }

  /** What drawing a non-empty sheet from cursor y0 leaves: the title as a
      block of its own, the outline from the last `tableStartY` down to where
      the rows left the cursor as the document's last draw call, and the
      cursor three font sizes below that point. */
  ghost predicate SheetDrawn(pages: seq<Page>, before: seq<Page>, y0: real, name: string, data: seq<Row>,
                             widths: seq<real>, y: real, tableStartY: real, measure: string -> real)
    requires |before| > 0
  {
    var tableTop := TitleTop(y0) - FontSize * 3.0;
    && TitleAt(pages, before, name, y0)
    && RowsFit(data, widths)
    && var end := TableCursor(Cursor(tableTop, tableTop), data, |data|, widths, measure);
       && EndsWith(pages, TableBorder(end.tableStartY, end.y, Sum(widths)))
       && y == end.y - FontSize * 3.0 && tableStartY == end.tableStartY
  }

  /** The pages after one table row drawn from the cursors c: when the cursor
      is below `margin + lineHeight`, the outline closing the page left
      behind, then the row alone at the top of a fresh page; otherwise the row
      at the cursor on the current page. */
  function RowPages(pages: seq<Page>, c: Cursor, row: Row, isHeader: bool, widths: seq<real>,
                    totalTableWidth: real, measure: string -> real): (r: seq<Page>)
    requires |pages| > 0 && |row| <= |widths|
    ensures |r| == |pages| + (if c.y < Margin + LineHeight then 1 else 0)
    ensures r[|r| - 1] == (if c.y < Margin + LineHeight then [] else pages[|pages| - 1])
                          + RowOps(row, widths, RowTop(c.y), RowHeight(row, widths, measure), isHeader, measure)
  {
    var ops := RowOps(row, widths, RowTop(c.y), RowHeight(row, widths, measure), isHeader, measure);
    if c.y < Margin + LineHeight then AppendToLast(pages, [TableBorder(c.tableStartY, c.y, totalTableWidth)]) + [ops]
    else AppendToLast(pages, ops)
  }

  /** The pages after the first k rows of a table drawn from `pages` with the
      cursors c, row 0 being the header. */
  function TablePages(pages: seq<Page>, c: Cursor, data: seq<Row>, k: nat, widths: seq<real>,
                      totalTableWidth: real, measure: string -> real): (r: seq<Page>)
    requires |pages| > 0 && k <= |data| && RowsFit(data, widths)
    ensures |pages| <= |r|
    decreases k
  {
    if k == 0 then pages
    else RowPages(TablePages(pages, c, data, k - 1, widths, totalTableWidth, measure),
                  TableCursor(c, data, k - 1, widths, measure), data[k - 1], k == 1, widths, totalTableWidth, measure)
  }

  /** Where the rows of a table drawn from `pages0` with the cursors c0 went:
      row j's top is where the first j rows left the cursor, or the top of a
      fresh page when that is below the break threshold, and row j is on the
      last page once rows 0 to j are drawn. */
  ghost predicate RowsAt(ps: seq<Placement>, pages0: seq<Page>, c0: Cursor, data: seq<Row>, widths: seq<real>,
                         totalTableWidth: real, measure: string -> real)
    decreases |ps|
  {
    && |pages0| > 0 && |ps| <= |data| && RowsFit(data, widths)
    && (|ps| > 0 ==>
          var j := |ps| - 1;
          && RowsAt(ps[..j], pages0, c0, data, widths, totalTableWidth, measure)
          && ps[j].top == RowTop(TableCursor(c0, data, j, widths, measure).y)
          && ps[j].page == |TablePages(pages0, c0, data, j + 1, widths, totalTableWidth, measure)| - 1)
  }

  /** Row j's placement has the top and the page that the first j rows of
      the table give it: a page after the one they end on exactly when they
      leave the cursor below the break threshold. */
  lemma {:induction false} RowsAtEach(ps: seq<Placement>, j: nat, pages0: seq<Page>, c0: Cursor, data: seq<Row>,
                                      widths: seq<real>, totalTableWidth: real, measure: string -> real)
    requires RowsAt(ps, pages0, c0, data, widths, totalTableWidth, measure) && j < |ps|
    ensures j < |data| && RowsFit(data, widths)
    ensures ps[j].top == RowTop(TableCursor(c0, data, j, widths, measure).y)
    ensures ps[j].page == |TablePages(pages0, c0, data, j + 1, widths, totalTableWidth, measure)| - 1
    ensures ps[j].page == |TablePages(pages0, c0, data, j, widths, totalTableWidth, measure)|
                          - (if TableCursor(c0, data, j, widths, measure).y < Margin + LineHeight then 0 else 1)
    decreases |ps|
  {
    if j < |ps| - 1 {
      var init := ps[..|ps| - 1];
      RowsAtEach(init, j, pages0, c0, data, widths, totalTableWidth, measure);
      assert ps[j] == init[j];
    }
  }

  /** The renderer's state: the pages and the two cursors. */
  datatype Doc = Doc(pages: seq<Page>, y: real, tableStartY: real)

  /** The pages after a sheet title drawn from cursor y: on a fresh page when
      the cursor is below `margin + 4 * fontSize`, on the current page otherwise. */
  function TitlePages(pages: seq<Page>, name: string, y: real): seq<Page>
    requires |pages| > 0
  {
    if y < Margin + FontSize * 4.0 then pages + [[TitleOp(name, Top)]]
    else AppendToLast(pages, [TitleOp(name, y)])
  }

  /** Both cursors where a table starts below a title drawn from cursor y. */
  function TableStart(y: real): Cursor
  {
    var t := TitleTop(y) - FontSize * 3.0;
    Cursor(t, t)
  }

  /** The state after a non-empty sheet drawn with the given widths from
      state d: the title, the table's rows with their page breaks, the outline
      from where the last page's table starts down to the cursor, and the
      cursor three font sizes lower. */
  function SheetDoc(d: Doc, name: string, data: seq<Row>, widths: seq<real>, measure: string -> real): (r: Doc)
    requires |d.pages| > 0 && RowsFit(data, widths)
    ensures |d.pages| <= |r.pages|
  {
    var c := TableStart(d.y);
    var end := TableCursor(c, data, |data|, widths, measure);
    var total := Sum(widths);
    var titled := TitlePages(d.pages, name, d.y);
    Doc(AppendToLast(TablePages(titled, c, data, |data|, widths, total, measure), [TableBorder(end.tableStartY, end.y, total)]),
        end.y - FontSize * 3.0, end.tableStartY)
  }

  /** The column widths a non-empty sheet is drawn with. */
  function SheetWidths(data: seq<Row>, measure: string -> real): (widths: seq<real>)
    requires |data| > 0
    ensures RowsFit(data, widths)
  {
    MaxColumnsIsMax(data);
    Normalised(ClampedWidths(data, measure))
  }

  /** The state after one sheet: unchanged for an empty sheet, otherwise
      the sheet drawn with its own column widths. */
  function RenderedSheet(d: Doc, sheet: Sheet, measure: string -> real): (r: Doc)
    requires |d.pages| > 0
    ensures |d.pages| <= |r.pages|
  {
    if |sheet.data| == 0 then d
    else SheetDoc(d, sheet.name, sheet.data, SheetWidths(sheet.data, measure), measure)
  }

  /** The state after the sheets of a workbook, one after another. */
  function WorkbookDoc(d: Doc, sheets: seq<Sheet>, measure: string -> real): (r: Doc)
    requires |d.pages| > 0
    ensures |d.pages| <= |r.pages|
    decreases |sheets|
  {
    if |sheets| == 0 then d
    else RenderedSheet(WorkbookDoc(d, sheets[..|sheets| - 1], measure), sheets[|sheets| - 1], measure)
  }

  class XlsxRenderer {
    const measure: string -> real
    var pages: seq<Page>
    var yPosition: real
    var tableStartY: real
    /** Every table row drawn so far, in drawing order. */
    ghost var placements: seq<Placement>

    ghost predicate Valid()
      reads this
    {
      && |pages| > 0
      && yPosition <= Top
      && AllPlaced(pages, placements, measure)
      && InDrawingOrder(placements, measure)
    }

    /** A new document with one page and the cursor at its top margin. */
    constructor (measure: string -> real)
      ensures Valid()
      ensures this.measure == measure
      ensures pages == [[]] && yPosition == Top && tableStartY == Top && placements == []
    {
      this.measure := measure;
      pages := [[]];
      yPosition := Top;
      tableStartY := Top;
      placements := [];
    }

    /** `page = pdfDoc.addPage(...)` followed by `yPosition = height - margin`. */
    method AddPage()
      requires Valid()
      modifies this
      ensures Valid() && Extends(old(pages), pages)
      ensures pages == old(pages) + [[]] && yPosition == Top
      ensures tableStartY == old(tableStartY) && placements == old(placements)
    {
      ExtendsByNewPage(pages);
      PlacementsKept(pages, pages + [[]], placements, measure);
      pages := pages + [[]];
      yPosition := Top;
    }

    /** Draw calls on the current page. */
    method Draw(ops: seq<DrawOp>)
      requires Valid()
      modifies this
      ensures Valid() && Extends(old(pages), pages)
      ensures pages == AppendToLast(old(pages), ops)
      ensures yPosition == old(yPosition) && tableStartY == old(tableStartY) && placements == old(placements)
    {
      ExtendsByAppend(pages, ops);
      PlacementsKept(pages, AppendToLast(pages, ops), placements, measure);
      pages := AppendToLast(pages, ops);
    }

    /** `lines.forEach(...)`: one text run per line, each a line height lower. */
    method DrawLines(lines: seq<string>, x: real, y: real, font: Font)
      requires Valid()
      modifies this
      ensures Valid()
      ensures pages == AppendToLast(old(pages), TextOps(lines, x, y, font))
      ensures yPosition == old(yPosition) && tableStartY == old(tableStartY) && placements == old(placements)
    {
      var cellY := y;
      AppendNothing(pages);
      for k := 0 to |lines|
        invariant Valid()
        invariant cellY == y - (k as real) * LineHeight
        invariant pages == AppendToLast(old(pages), TextOps(lines[..k], x, y, font))
        invariant yPosition == old(yPosition) && tableStartY == old(tableStartY) && placements == old(placements)
      {
        Draw([Text(lines[k], x, cellY, FontSize, font)]);
        AppendTwice(old(pages), TextOps(lines[..k], x, y, font), [Text(lines[k], x, cellY, FontSize, font)]);
        assert TextOps(lines[..k + 1], x, y, font) == TextOps(lines[..k], x, y, font) + [Text(lines[k], x, cellY, FontSize, font)];
        cellY := cellY - LineHeight;
      }
      assert lines[..|lines|] == lines;
    }

    /** The page break before a row: close the outline on the page left
        behind, start a new page, and restart the table at its top. */
    method BreakPage(totalTableWidth: real)
      requires Valid()
      modifies this
      ensures Valid()
      ensures pages == AppendToLast(old(pages), [TableBorder(old(tableStartY), old(yPosition), totalTableWidth)]) + [[]]
      ensures yPosition == Top && tableStartY == Top && placements == old(placements)
    {
      Draw([TableBorder(tableStartY, yPosition, totalTableWidth)]);
      AddPage();
      tableStartY := yPosition;
    }

    /** One cell at the cursor: the header shading, the four borders, then the
        wrapped text inset by the padding. */
    method DrawCell(cell: Cell, x: real, width: real, height: real, isHeader: bool)
      requires Valid()
      modifies this
      ensures Valid()
      ensures pages == AppendToLast(old(pages), CellOps(cell, x, yPosition, width, height, isHeader, measure))
      ensures yPosition == old(yPosition) && tableStartY == old(tableStartY) && placements == old(placements)
    {
      var cellContent := CellText(cell);
      var lines := WrapText(cellContent, measure, width - CellPadding * 2.0);
      var fill := if isHeader then [Fill(x, yPosition - height, width, height)] else [];
      var borders := BorderOps(x, yPosition, width, height);
      Draw(fill);
      Draw(borders);
      DrawLines(lines, x + CellPadding, yPosition - FontSize - CellPadding, BodyFont(isHeader));
      AppendThree(old(pages), fill, borders, TextOps(lines, x + CellPadding, yPosition - FontSize - CellPadding, BodyFont(isHeader)));
    }

    /** The cells of one row at the cursor, side by side from the left margin. */
    method DrawCells(row: Row, isHeader: bool, widths: seq<real>, maxRowHeight: real)
      requires Valid() && |row| <= |widths|
      modifies this
      ensures Valid()
      ensures pages == AppendToLast(old(pages), RowOps(row, widths, yPosition, maxRowHeight, isHeader, measure))
      ensures yPosition == old(yPosition) && tableStartY == old(tableStartY) && placements == old(placements)
    {
      var xPosition := Margin;
      AppendNothing(pages);
      assert row[..0] == [];
      for colIndex := 0 to |row|
        invariant Valid()
        invariant xPosition == CellLeft(widths, colIndex)
        invariant pages == AppendToLast(old(pages), RowOps(row[..colIndex], widths, yPosition, maxRowHeight, isHeader, measure))
        invariant yPosition == old(yPosition) && tableStartY == old(tableStartY) && placements == old(placements)
      {
        DrawCell(row[colIndex], xPosition, widths[colIndex], maxRowHeight, isHeader);
        AppendTwice(old(pages), RowOps(row[..colIndex], widths, yPosition, maxRowHeight, isHeader, measure),
                    CellOps(row[colIndex], xPosition, yPosition, widths[colIndex], maxRowHeight, isHeader, measure));
        assert row[..colIndex + 1][..colIndex] == row[..colIndex];
        CellsContiguous(widths, colIndex);
        xPosition := xPosition + widths[colIndex];
      }
      assert row[..|row|] == row;
    }

    /** One row at the cursor; the cursor then drops by the row height, 2
        more after the header row. */
    method DrawRowAt(row: Row, isHeader: bool, widths: seq<real>)
      requires Valid() && |row| <= |widths|
      requires Margin + LineHeight <= yPosition
      modifies this
      ensures Valid() && Extends(old(pages), pages)
      ensures pages == AppendToLast(old(pages), RowOps(row, widths, old(yPosition), RowHeight(row, widths, measure), isHeader, measure))
      ensures yPosition == old(yPosition) - RowHeight(row, widths, measure) - (if isHeader then 2.0 else 0.0)
      ensures tableStartY == old(tableStartY)
      ensures placements == old(placements)
                + [Placement(|pages| - 1, |old(pages)[|old(pages)| - 1]|, row, widths, old(yPosition), isHeader)]
    {
      var maxRowHeight := RowHeightOf(row, widths, measure);
      DrawCells(row, isHeader, widths, maxRowHeight);
      AppendedBlock(old(pages), RowOps(row, widths, yPosition, maxRowHeight, isHeader, measure));
      ghost var placed := Placement(|pages| - 1, |old(pages)[|old(pages)| - 1]|, row, widths, yPosition, isHeader);
      PlacementAdded(pages, placements, placed, measure);
      OrderExtended(old(pages), placements, placed, measure);
      placements := placements + [placed];
      yPosition := yPosition - maxRowHeight;
      if isHeader {
        yPosition := yPosition - 2.0;
      }
    }

    /** One table row: break the page first if the cursor is below
        `margin + lineHeight`, then draw the row at the cursor. */
    method DrawRow(row: Row, isHeader: bool, widths: seq<real>, totalTableWidth: real)
      requires Valid() && |row| <= |widths|
      modifies this
      ensures Valid() && Extends(old(pages), pages)
      ensures old(yPosition) < Margin + LineHeight ==>
                && pages == AppendToLast(old(pages), [TableBorder(old(tableStartY), old(yPosition), totalTableWidth)])
                            + [RowOps(row, widths, Top, RowHeight(row, widths, measure), isHeader, measure)]
                && tableStartY == Top
      ensures old(yPosition) >= Margin + LineHeight ==>
                && pages == AppendToLast(old(pages), RowOps(row, widths, old(yPosition), RowHeight(row, widths, measure), isHeader, measure))
                && tableStartY == old(tableStartY)
      ensures yPosition == RowTop(old(yPosition)) - RowHeight(row, widths, measure) - (if isHeader then 2.0 else 0.0)
      ensures placements == old(placements)
                + [Placement(|pages| - 1,
                             if old(yPosition) < Margin + LineHeight then 0 else |old(pages)[|old(pages)| - 1]|,
                             row, widths, RowTop(old(yPosition)), isHeader)]
    {
      if yPosition < Margin + LineHeight {
        BreakPage(totalTableWidth);
        ghost var closed := AppendToLast(old(pages), [TableBorder(old(tableStartY), old(yPosition), totalTableWidth)]);
        ExtendsByAppend(old(pages), [TableBorder(old(tableStartY), old(yPosition), totalTableWidth)]);
        ExtendsByNewPage(closed);
        ExtendsTransitive(old(pages), closed, pages);
        ghost var broken := pages;
        DrawRowAt(row, isHeader, widths);
        ExtendsTransitive(old(pages), broken, pages);
        AppendToFresh(closed, RowOps(row, widths, Top, RowHeight(row, widths, measure), isHeader, measure));
      } else {
        DrawRowAt(row, isHeader, widths);
      }
    }

    /** The sheet title, on a fresh page when the cursor is below
        `margin + 4 * fontSize`; the cursor then drops by `3 * fontSize`. */
    method DrawTitle(name: string)
      requires Valid()
      modifies this
      ensures Valid() && Extends(old(pages), pages)
      ensures old(yPosition) < Margin + FontSize * 4.0 ==>
                pages == old(pages) + [[TitleOp(name, Top)]] && yPosition == Top - FontSize * 3.0
      ensures old(yPosition) >= Margin + FontSize * 4.0 ==>
                pages == AppendToLast(old(pages), [TitleOp(name, old(yPosition))]) && yPosition == old(yPosition) - FontSize * 3.0
      ensures TitleAt(pages, old(pages), name, old(yPosition)) && yPosition == TitleTop(old(yPosition)) - FontSize * 3.0
      ensures pages == TitlePages(old(pages), name, old(yPosition))
      ensures tableStartY == old(tableStartY) && placements == old(placements)
    {
      if yPosition < Margin + FontSize * 4.0 {
        AddPage();
        AppendToFresh(old(pages), [TitleOp(name, Top)]);
      }
      ghost var mid := pages;
      Draw([TitleOp(name, yPosition)]);
      AppendedBlock(mid, [TitleOp(name, yPosition)]);
      ExtendsTransitive(old(pages), mid, pages);
      yPosition := yPosition - FontSize * 3.0;
    }

    /** Row k of a table, after rows 0 to k - 1 were drawn from the pages
        `pages0`, the placements `placed0` and the cursor `c0`: drawn as the
        header when it is the first row, with the table's widths, recorded as
        the next placement, and the cursor moves on as `TableCursor` says. */
    method DrawTableRow(data: seq<Row>, k: nat, widths: seq<real>, totalTableWidth: real,
                        ghost pages0: seq<Page>, ghost placed0: seq<Placement>, ghost c0: Cursor)
      requires Valid() && RowsFit(data, widths) && k < |data|
      requires TableSoFar(placed0, placements, pages0, c0, data, k, widths, totalTableWidth, measure) && Extends(pages0, pages)
      requires pages == TablePages(pages0, c0, data, k, widths, totalTableWidth, measure)
      requires Cursor(yPosition, tableStartY) == TableCursor(c0, data, k, widths, measure)
      modifies this
      ensures Valid() && Extends(pages0, pages)
      ensures TableSoFar(placed0, placements, pages0, c0, data, k + 1, widths, totalTableWidth, measure)
      ensures pages == TablePages(pages0, c0, data, k + 1, widths, totalTableWidth, measure)
      ensures Cursor(yPosition, tableStartY) == TableCursor(c0, data, k + 1, widths, measure)
    {
      ghost var mid := pages;
      ghost var done := placements;
      ghost var c := Cursor(yPosition, tableStartY);
      DrawRow(data[k], k == 0, widths, totalTableWidth);
      ExtendsTransitive(pages0, mid, pages);
      assert pages == RowPages(mid, c, data[k], k == 0, widths, totalTableWidth, measure);
      ghost var p := placements[|done|];
      assert placements == done + [p];
      TableSoFarStep(placed0, done, p, pages0, c0, data, k, widths, totalTableWidth, measure);
      assert Cursor(yPosition, tableStartY) == RowCursor(c, data[k], k == 0, widths, measure);
    }

    /** The rows of a sheet in order, the first one as the header, all with
        the same column widths. */
    method DrawTable(data: seq<Row>, widths: seq<real>, totalTableWidth: real)
      requires Valid() && RowsFit(data, widths)
      modifies this
      ensures Valid() && Extends(old(pages), pages)
      ensures |placements| == |old(placements)| + |data|
      ensures placements[..|old(placements)|] == old(placements)
      ensures TableRows(placements[|old(placements)|..], data, widths)
      ensures RowsAt(placements[|old(placements)|..], old(pages), Cursor(old(yPosition), old(tableStartY)),
                     data, widths, totalTableWidth, measure)
      ensures pages == TablePages(old(pages), Cursor(old(yPosition), old(tableStartY)), data, |data|, widths, totalTableWidth, measure)
      ensures Cursor(yPosition, tableStartY) == TableCursor(Cursor(old(yPosition), old(tableStartY)), data, |data|, widths, measure)
    {
      ghost var c0 := Cursor(yPosition, tableStartY);
      assert TableSoFar(placements, placements, pages, c0, data, 0, widths, totalTableWidth, measure);
      for rowIndex := 0 to |data|
        invariant Valid() && Extends(old(pages), pages)
        invariant TableSoFar(old(placements), placements, old(pages), c0, data, rowIndex, widths, totalTableWidth, measure)
        invariant pages == TablePages(old(pages), c0, data, rowIndex, widths, totalTableWidth, measure)
        invariant Cursor(yPosition, tableStartY) == TableCursor(c0, data, rowIndex, widths, measure)
      {
        DrawTableRow(data, rowIndex, widths, totalTableWidth, old(pages), old(placements), c0);
      }
      assert data[..|data|] == data;
    }

    /** A non-empty sheet with its column widths: the title, every row in
        order, the final outline from `tableStartY` down to the cursor as the
        last draw call, and a gap of three font sizes before the next sheet. */
    method DrawSheet(name: string, data: seq<Row>, widths: seq<real>)
      requires Valid() && |data| > 0 && RowsFit(data, widths)
      modifies this
      ensures Valid() && Extends(old(pages), pages)
      ensures |placements| == |old(placements)| + |data|
      ensures placements[..|old(placements)|] == old(placements)
      ensures TableRows(placements[|old(placements)|..], data, widths)
      ensures RowsAt(placements[|old(placements)|..], TitlePages(old(pages), name, old(yPosition)), TableStart(old(yPosition)),
                     data, widths, Sum(widths), measure)
      ensures SheetDrawn(pages, old(pages), old(yPosition), name, data, widths, yPosition, tableStartY, measure)
      ensures Doc(pages, yPosition, tableStartY) == SheetDoc(Doc(old(pages), old(yPosition), old(tableStartY)), name, data, widths, measure)
    {
      var totalTableWidth := Sum(widths);
      DrawTitle(name);
      ghost var tableTop := TitleTop(old(yPosition)) - FontSize * 3.0;
      ghost var titled := pages;
      tableStartY := yPosition;
      ghost var c := TableStart(old(yPosition));
      assert c == Cursor(yPosition, tableStartY);
      DrawTable(data, widths, totalTableWidth);
      ghost var end := TableCursor(c, data, |data|, widths, measure);
      assert yPosition == end.y && tableStartY == end.tableStartY;
      ghost var tabled := pages;
      assert tabled == TablePages(TitlePages(old(pages), name, old(yPosition)), c, data, |data|, widths, totalTableWidth, measure);
      CloseTable(totalTableWidth);
      ExtendsTransitive(old(pages), titled, tabled);
      ExtendsTransitive(old(pages), tabled, pages);
      ExtendsTransitive(titled, tabled, pages);
      TitleKept(old(pages), titled, pages, name, old(yPosition));
    }

    /** The end of a table: its outline from `tableStartY` down to the cursor
        as the next draw call, then a gap of three font sizes. */
    method CloseTable(totalTableWidth: real)
      requires Valid()
      modifies this
      ensures Valid() && Extends(old(pages), pages)
      ensures pages == AppendToLast(old(pages), [TableBorder(old(tableStartY), old(yPosition), totalTableWidth)])
      ensures EndsWith(pages, TableBorder(old(tableStartY), old(yPosition), totalTableWidth))
      ensures yPosition == old(yPosition) - FontSize * 3.0
      ensures tableStartY == old(tableStartY) && placements == old(placements)
    {
      var border := TableBorder(tableStartY, yPosition, totalTableWidth);
      Draw([border]);
      assert pages[|pages| - 1] == old(pages)[|old(pages)| - 1] + [border];
      yPosition := yPosition - FontSize * 3.0;
    }

    /** One sheet: nothing at all for an empty sheet; otherwise the column
        widths are computed and the sheet is drawn with them. */
    method RenderSheet(sheet: Sheet)
      requires Valid()
      modifies this
      ensures Valid() && Extends(old(pages), pages)
      ensures |sheet.data| == 0 ==>
                pages == old(pages) && yPosition == old(yPosition) && tableStartY == old(tableStartY)
      ensures |placements| == |old(placements)| + |sheet.data|
      ensures placements[..|old(placements)|] == old(placements)
      ensures RowsOf(placements[|old(placements)|..]) == sheet.data
      ensures SheetRows(placements[|old(placements)|..], Doc(old(pages), old(yPosition), old(tableStartY)), sheet, measure)
      ensures |sheet.data| > 0 ==>
                SheetDrawn(pages, old(pages), old(yPosition), sheet.name, sheet.data,
                           Normalised(ClampedWidths(sheet.data, measure)), yPosition, tableStartY, measure)
      ensures Doc(pages, yPosition, tableStartY) == RenderedSheet(Doc(old(pages), old(yPosition), old(tableStartY)), sheet, measure)
    {
      var data := sheet.data;
      if |data| == 0 {
        assert placements[|placements|..] == [];
        return;
      }
      var columnWidths := ColumnWidths(data, measure);
      MaxColumnsIsMax(data);
      DrawSheet(sheet.name, data, columnWidths);
      TableRowsOf(placements[|old(placements)|..], data, columnWidths);
    }

    /** Every sheet of the workbook, in order. */
    method RenderWorkbook(sheets: seq<Sheet>)
      requires Valid()
      modifies this
      ensures Valid() && Extends(old(pages), pages)
      ensures |old(placements)| <= |placements| && placements[..|old(placements)|] == old(placements)
      ensures WorkbookRows(placements[|old(placements)|..], Doc(old(pages), old(yPosition), old(tableStartY)), sheets, measure)
      ensures RowsOf(placements[|old(placements)|..]) == AllRows(sheets)
      ensures Doc(pages, yPosition, tableStartY) == WorkbookDoc(Doc(old(pages), old(yPosition), old(tableStartY)), sheets, measure)
    {
      ghost var start := |placements|;
      ghost var d0 := Doc(pages, yPosition, tableStartY);
      assert placements[start..] == [];
      assert sheets[..0] == [];
      for s := 0 to |sheets|
        invariant Valid() && Extends(old(pages), pages)
        invariant SheetsSoFar(old(placements), placements, d0, sheets, s, measure)
        invariant RowsOf(placements[start..]) == AllRows(sheets[..s])
        invariant Doc(pages, yPosition, tableStartY) == WorkbookDoc(d0, sheets[..s], measure)
      {
        RenderNextSheet(sheets, s, old(pages), old(placements), d0);
      }
      assert sheets[..|sheets|] == sheets;
    }

    /** Sheet s of the workbook, after sheets 0 to s - 1 were rendered from the
        pages `pages0` and the placements `placed0`. */
    method RenderNextSheet(sheets: seq<Sheet>, s: nat, ghost pages0: seq<Page>, ghost placed0: seq<Placement>, ghost d0: Doc)
      requires Valid() && s < |sheets| && |d0.pages| > 0
      requires SheetsSoFar(placed0, placements, d0, sheets, s, measure) && Extends(pages0, pages)
      requires RowsOf(placements[|placed0|..]) == AllRows(sheets[..s])
      requires Doc(pages, yPosition, tableStartY) == WorkbookDoc(d0, sheets[..s], measure)
      modifies this
      ensures Valid() && Extends(pages0, pages)
      ensures SheetsSoFar(placed0, placements, d0, sheets, s + 1, measure)
      ensures RowsOf(placements[|placed0|..]) == AllRows(sheets[..s + 1])
      ensures Doc(pages, yPosition, tableStartY) == WorkbookDoc(d0, sheets[..s + 1], measure)
    {
      ghost var mid := pages;
      ghost var done := placements;
      RenderSheet(sheets[s]);
      ExtendsTransitive(pages0, mid, pages);
      SheetsSoFarStep(placed0, done, placements, d0, sheets, s, measure);
      RowsSoFarStep(placed0, done, placements, sheets, s);
      assert sheets[..s + 1][..s] == sheets[..s];
    }
  }

  lemma PlacementAdded(pages: seq<Page>, ps: seq<Placement>, p: Placement, measure: string -> real)
    requires AllPlaced(pages, ps, measure) && PlacedIn(pages, p, measure)
    ensures AllPlaced(pages, ps + [p], measure)
  {
  }

  /** A sheet's rows as drawn: in order, the first as the header, all
      with the same column widths. */
  predicate TableRows(ps: seq<Placement>, data: seq<Row>, widths: seq<real>)
  {
    && |ps| == |data|
    && (forall j :: 0 <= j < |ps| ==> ps[j].row == data[j] && ps[j].header == (j == 0) && ps[j].widths == widths)
  }

  /** The placements after `before` are the first k rows of a table. */
  ghost predicate TableSoFar(before: seq<Placement>, now: seq<Placement>, pages0: seq<Page>, c0: Cursor,
                             data: seq<Row>, k: nat, widths: seq<real>, totalTableWidth: real, measure: string -> real)
    requires k <= |data|
  {
    && |now| == |before| + k
    && now[..|before|] == before
    && TableRows(now[|before|..], data[..k], widths)
    && RowsAt(now[|before|..], pages0, c0, data, widths, totalTableWidth, measure)
  }

  /** One more placement for row k, at the top and on the page the table
      loop gives it, extends the first k rows to k + 1. */
  lemma TableSoFarStep(before: seq<Placement>, done: seq<Placement>, p: Placement, pages0: seq<Page>, c0: Cursor,
                       data: seq<Row>, k: nat, widths: seq<real>, totalTableWidth: real, measure: string -> real)
    requires k < |data| && TableSoFar(before, done, pages0, c0, data, k, widths, totalTableWidth, measure)
    requires p.row == data[k] && p.header == (k == 0) && p.widths == widths
    requires p.top == RowTop(TableCursor(c0, data, k, widths, measure).y)
    requires p.page == |TablePages(pages0, c0, data, k + 1, widths, totalTableWidth, measure)| - 1
    ensures TableSoFar(before, done + [p], pages0, c0, data, k + 1, widths, totalTableWidth, measure)
  {
    var seg := done[|before|..];
    SplitAfter(before, done, done + [p]);
    assert (done + [p])[|done|..] == [p];
    TableRowsSnoc(seg, p, data, k, widths);
    RowsAtSnoc(seg, p, pages0, c0, data, widths, totalTableWidth, measure);
  }

  lemma RowsAtSnoc(ps: seq<Placement>, p: Placement, pages0: seq<Page>, c0: Cursor, data: seq<Row>, widths: seq<real>,
                   totalTableWidth: real, measure: string -> real)
    requires RowsAt(ps, pages0, c0, data, widths, totalTableWidth, measure) && |ps| < |data|
    requires p.top == RowTop(TableCursor(c0, data, |ps|, widths, measure).y)
    requires p.page == |TablePages(pages0, c0, data, |ps| + 1, widths, totalTableWidth, measure)| - 1
    ensures RowsAt(ps + [p], pages0, c0, data, widths, totalTableWidth, measure)
  {
    assert (ps + [p])[..|ps|] == ps;
  }

  lemma TableRowsSnoc(ps: seq<Placement>, p: Placement, data: seq<Row>, k: nat, widths: seq<real>)
    requires k < |data| && TableRows(ps, data[..k], widths)
    requires p.row == data[k] && p.header == (k == 0) && p.widths == widths
    ensures TableRows(ps + [p], data[..k + 1], widths)
  {
    assert data[..k + 1] == data[..k] + [data[k]];
  }

  lemma TableRowsOf(ps: seq<Placement>, data: seq<Row>, widths: seq<real>)
    requires TableRows(ps, data, widths)
    ensures RowsOf(ps) == data
  {
  }

  lemma RowsOfAppend(a: seq<Placement>, b: seq<Placement>)
    ensures RowsOf(a + b) == RowsOf(a) + RowsOf(b)
  {
  }

  /** The placements of one sheet drawn from the state d: none for an empty
      sheet; otherwise its rows as its table (the first the header, all with
      the sheet's column widths), with the tops and pages the table loop gives
      them below the title. */
  ghost predicate SheetRows(ps: seq<Placement>, d: Doc, sheet: Sheet, measure: string -> real)
  {
    && |ps| == |sheet.data|
    && |d.pages| > 0
    && (|sheet.data| > 0 ==>
          var widths := SheetWidths(sheet.data, measure);
          && TableRows(ps, sheet.data, widths)
          && RowsAt(ps, TitlePages(d.pages, sheet.name, d.y), TableStart(d.y), sheet.data, widths, Sum(widths), measure))
  }

  /** The placements of a run of sheets drawn from the state d0: each sheet's
      rows, sheet after sheet, placed as that sheet drawn from the state the
      sheets before it left. */
  ghost predicate WorkbookRows(ps: seq<Placement>, d0: Doc, sheets: seq<Sheet>, measure: string -> real)
    requires |d0.pages| > 0
    decreases |sheets|
  {
    if |sheets| == 0 then ps == []
    else
      var data := sheets[|sheets| - 1].data;
      && |data| <= |ps|
      && WorkbookRows(ps[..|ps| - |data|], d0, sheets[..|sheets| - 1], measure)
      && SheetRows(ps[|ps| - |data|..], WorkbookDoc(d0, sheets[..|sheets| - 1], measure), sheets[|sheets| - 1], measure)
  }

  /** The placements after `before` are those of the first s sheets. */
  ghost predicate SheetsSoFar(before: seq<Placement>, now: seq<Placement>, d0: Doc, sheets: seq<Sheet>, s: nat, measure: string -> real)
    requires s <= |sheets| && |d0.pages| > 0
  {
    && |before| <= |now|
    && now[..|before|] == before
    && WorkbookRows(now[|before|..], d0, sheets[..s], measure)
  }

  /** Rows placed for sheet s extend the first s sheets to s + 1. */
  lemma SheetsSoFarStep(before: seq<Placement>, done: seq<Placement>, now: seq<Placement>,
                        d0: Doc, sheets: seq<Sheet>, s: nat, measure: string -> real)
    requires s < |sheets| && |d0.pages| > 0 && SheetsSoFar(before, done, d0, sheets, s, measure)
    requires |now| == |done| + |sheets[s].data| && now[..|done|] == done
    requires SheetRows(now[|done|..], WorkbookDoc(d0, sheets[..s], measure), sheets[s], measure)
    ensures SheetsSoFar(before, now, d0, sheets, s + 1, measure)
  {
    var rows := now[|done|..];
    WorkbookRowsSnoc(done[|before|..], rows, d0, sheets[..s], sheets[s], measure);
    SplitAfter(before, done, now);
    TakeOneMore(sheets, s);
  }

  /** `now` extends `done`, which extends `before`: what follows `before` in
      `now` is what follows it in `done`, then what follows `done`. */
  lemma SplitAfter<X>(before: seq<X>, done: seq<X>, now: seq<X>)
    requires |before| <= |done| <= |now| && done[..|before|] == before && now[..|done|] == done
    ensures now[..|before|] == before
    ensures now[|before|..] == done[|before|..] + now[|done|..]
  {
    assert now[..|before|] == done[..|before|];
  }

  lemma TakeDrop<X>(xs: seq<X>, k: nat)
    requires k <= |xs|
    ensures xs == xs[..k] + xs[k..]
  {
  }

  lemma TakeOneMore<X>(xs: seq<X>, k: nat)
    requires k < |xs|
    ensures xs[..k + 1] == xs[..k] + [xs[k]]
  {
  }

  /** One more sheet's rows after those of the sheets before it. */
  lemma WorkbookRowsSnoc(ps: seq<Placement>, rows: seq<Placement>, d0: Doc, sheets: seq<Sheet>, sheet: Sheet, measure: string -> real)
    requires |d0.pages| > 0 && WorkbookRows(ps, d0, sheets, measure)
    requires SheetRows(rows, WorkbookDoc(d0, sheets, measure), sheet, measure)
    ensures WorkbookRows(ps + rows, d0, sheets + [sheet], measure)
  {
    var all := ps + rows;
    var sh := sheets + [sheet];
    assert sh[..|sh| - 1] == sheets && sh[|sh| - 1] == sheet;
    assert all[..|all| - |rows|] == ps;
    assert all[|all| - |rows|..] == rows;
  }

  /** The rows placed after `before` are the rows of the first s sheets;
      those placed for sheet s extend them to s + 1 sheets. */
  lemma RowsSoFarStep(before: seq<Placement>, done: seq<Placement>, now: seq<Placement>, sheets: seq<Sheet>, s: nat)
    requires s < |sheets| && |before| <= |done| <= |now|
    requires done[..|before|] == before && now[..|done|] == done
    requires RowsOf(done[|before|..]) == AllRows(sheets[..s]) && RowsOf(now[|done|..]) == sheets[s].data
    ensures RowsOf(now[|before|..]) == AllRows(sheets[..s + 1])
  {
    SplitAfter(before, done, now);
    RowsOfAppend(done[|before|..], now[|done|..]);
    TakeOneMore(sheets, s);
    assert sheets[..s + 1][..s] == sheets[..s];
  }


  /** The converter end to end: every row of every sheet is drawn as one
      contiguous block on a single page, with its top between the break
      threshold and the top margin, and the blocks appear in the document in
      workbook order without overlapping. The download name drops the first
      ".xlsx" and appends ".pdf". */
  method ConvertXlsx(workbook: seq<Sheet>, measure: string -> real, fileName: string)
    returns (pages: seq<Page>, downloadName: string, ghost placements: seq<Placement>)
    ensures |pages| >= 1
    ensures pages == WorkbookDoc(Doc([[]], Top, Top), workbook, measure).pages
    ensures RowsOf(placements) == AllRows(workbook)
    ensures WorkbookRows(placements, Doc([[]], Top, Top), workbook, measure)
    ensures AllPlaced(pages, placements, measure)
    ensures InDrawingOrder(placements, measure)
    ensures downloadName == DownloadName(fileName, ".xlsx")
  {
    var renderer := new XlsxRenderer(measure);
    renderer.RenderWorkbook(workbook);
    pages := renderer.pages;
    placements := renderer.placements;
    downloadName := DownloadName(fileName, ".xlsx");
  }
}
