# PDF converters and spreadsheet text extraction: a Dafny model

This project models the computational core of a browser file-conversion tool.

- **Spreadsheet to PDF** (`convertXLSXtoPDF`): every non-empty sheet becomes a titled table on landscape A4 pages (842 × 595 points).
  - Column widths are clamped to `min(content + 10, tableWidth / maxColumns)` and scaled down if they still overflow.
  - Each cell's text is wrapped greedily on single spaces.
  - A row is as tall as its tallest wrapped cell.
  - A cursor moves down the page and starts a new page before a title or a row when it is too low.
- **Document to PDF** (`convertDOCXtoPDF`): the extracted text is cut at line feeds and blank lines are dropped.
  - Each paragraph is broken greedily into lines no wider than `width - 2·margin`.
  - The lines are drawn top-down with a page break whenever the cursor falls below `margin + fontSize`. The page size is a parameter of the model; the code takes pdf-lib's default page, A4 portrait (595.28 × 841.89 points).
  - The download name removes the first `.docx` from the file name and appends `.pdf`. The spreadsheet converter does the same with `.xlsx`.
- **Spreadsheet to text** (the spreadsheet branch of `extractTextFromFile`): each sheet becomes a block of lines:
  - a title;
  - a rule of 40 `=`;
  - the header joined by `" | "`;
  - a `-` rule as long as the header;
  - one line per data row;
  - a blank line.

The PDF writer is modelled as a sequence of pages, each holding the draw calls made on it in order (`Pdf`). Font metrics are a parameter `measure: string -> real` that stands for `widthOfTextAtSize` at the fixed font size.

The model is imperative where the code is:
- Each converter's cursor, current page and page list are fields of a class (`XlsxRender.XlsxRenderer`, `DocxRender.DocxRenderer`), and their methods keep an invariant.
- Column widths are an array scaled in place.
- The word loops and the text accumulation are `while`/`for` loops.
- Each loop is proved against a specification function (`Wrap`, `Normalised`, `RowHeight`, `TableCursor` and `TablePages`, `WorkbookDoc`, `BreakFrom`, `FlushAll`, `WorkbookText`), and the properties of those functions are proved as lemmas.

Notes on what the code does:

- Words are split on the single space `' '` only, not on any whitespace (`src/services/xlsxServices.js:194`, `src/services/docxServices.js:36`).
- Column widths are clamped to `tableWidth / maxColumns` before normalisation (`src/services/xlsxServices.js:39`). The scale-down branch therefore never fires with exact arithmetic, which `XlsxLayout.ClampedFits` proves. It is still modelled.
- A page break before a row depends only on the cursor (`yPosition < margin + lineHeight`), not on the height of the row about to be drawn (`src/services/xlsxServices.js:81`). A tall row can therefore run below the bottom margin.
- The table outline's height is `tableStartY - (height - yPosition)`, reproduced literally (`src/services/xlsxServices.js:83,170`). Its top edge is `tableStartY`, but its bottom edge is `height - yPosition`, which is the cursor only when the cursor is halfway down the page (`XlsxRender.TableBorder`). It is not claimed to enclose the table.
- The code validates no geometry and has no error path of its own. The one way it fails is an exception from pdf-lib for a character the standard font cannot encode, which is left out (see below).
- A sheet whose rows are all empty still gets its title, one line-height row per data row, and the outline.

## Model

| member | source | states |
|---|---|---|
| XlsxLayout.WrapText | src/services/xlsxServices.js:193-211 | the word loop computes exactly the greedy wrapping `Wrap`: each word joins the line while the trial line measures strictly less than `maxWidth` |
| XlsxLayout.Wrap | src/services/xlsxServices.js:194-209 | there is always at least one line, and the empty text gives exactly `[""]` |
| XlsxLayout.WrapJoin | src/services/xlsxServices.js:194-209 | round trip: the lines joined with single spaces give back the cell text exactly |
| XlsxLayout.WrapFits | src/services/xlsxServices.js:200-206 | every line that holds a space (two or more words) measures strictly less than `maxWidth`; only a one-word line can exceed it |
| XlsxLayout.WrapGreedy | src/services/xlsxServices.js:198-207 | wrapping is greedy: a line and the first word of the next line together measure at least `maxWidth` |
| XlsxLayout.MaxColumnsIsMax | src/services/xlsxServices.js:31 | the column count is at least every row's length and equal to some row's length |
| XlsxLayout.ContentWidthIsMax | src/services/xlsxServices.js:35-38 | a column's content width is the widest measured cell text in that column (missing cells measured as `""`), and some cell attains it |
| XlsxLayout.ClampedWidth | src/services/xlsxServices.js:39 | `Math.min(content + 10, tableWidth / maxColumns)`: the width is at most both bounds and equal to one of them |
| XlsxLayout.Normalised | src/services/xlsxServices.js:42-49 | one width per column, left exactly as they are when their total does not exceed `tableWidth` |
| XlsxLayout.ClampedFits | src/services/xlsxServices.js:30-49 | clamped widths sum to at most `tableWidth`, so normalisation leaves them unchanged |
| XlsxLayout.NormalisedFits | src/services/xlsxServices.js:43-49 | after normalisation the widths sum to at most `tableWidth`, and exactly to it when the scale-down fires |
| XlsxLayout.NormalisedShrinks | src/services/xlsxServices.js:44-48 | when the sum overflows, the ratio lies strictly between 0 and 1, every width is multiplied by that same ratio, and every positive width strictly shrinks |
| XlsxLayout.ColumnWidths | src/services/xlsxServices.js:29-49 | one width per column; each is at most its content width + 10 and at most `tableWidth / maxColumns`; the sum is at most `tableWidth`; the result equals the normalised clamped widths |
| XlsxLayout.NormaliseInPlace | src/services/xlsxServices.js:43-49 | scaling the array in place leaves exactly the normalised widths in it |
| XlsxLayout.CellHeight | src/services/xlsxServices.js:95 | a cell is at least one line plus the two paddings tall |
| XlsxLayout.RowHeight | src/services/xlsxServices.js:76-97 | a row is never shorter than one line height |
| XlsxLayout.RowHeightIsMax | src/services/xlsxServices.js:76-97 | no cell is taller than its row; a row with cells is exactly as tall as one of them, and an empty row is `lineHeight` tall |
| XlsxLayout.MaxHeightIsMax | src/services/xlsxServices.js:78-96 | the `Math.max` fold starting at `lineHeight` bounds every height and is `lineHeight` or one of the heights |
| XlsxLayout.RowHeightOf | src/services/xlsxServices.js:78-97 | the max loop computes `RowHeight` |
| XlsxLayout.TextOps | src/services/xlsxServices.js:146-156 | one text run per wrapped line, in line order, all at the same x, size and font; the first at the given y and each next one exactly one line height lower |
| XlsxLayout.BorderOps | src/services/xlsxServices.js:117-140 | four lines: two horizontal ones as wide as the cell, at its top and at its top minus the row height, then two vertical ones as tall as the row, at its left and right edges |
| XlsxLayout.CellOps | src/services/xlsxServices.js:104-158 | a cell draws the grey shading first exactly when it is a header cell, and then the shading covers the whole cell; after it come four more ops and then one text run per wrapped line, in order, bold for the header |
| XlsxLayout.CellOpsLayout | src/services/xlsxServices.js:104-158 | after the optional shading come exactly the cell's four `BorderOps` lines, then exactly the `TextOps` runs of its wrapped lines at `x + padding`, the first at `top - fontSize - padding` and each next a line height lower |
| XlsxLayout.CellsContiguous | src/services/xlsxServices.js:100-158 | the first cell starts at the left margin and each cell starts where the previous one ends |
| XlsxLayout.RowInBand | src/services/xlsxServices.js:108-156 | every shading, border line and text run of a row lies vertically between the row's top and top minus the row height |
| Cells.CellText | src/services/xlsxServices.js:92 | `String(v \|\| '')` is the empty string exactly for the falsy values (undefined, null, `''`, 0, NaN, false), and `String(v)` otherwise |
| Cells.JoinText | src/services/ai/aiService.js:62 | `join` and `?? ''` give the empty string exactly for undefined, null and `''` |
| Cells.RenderingsDiffer | src/services/xlsxServices.js:92 | the table converter and the text extractor write a cell differently exactly when it is `false` or a zero/NaN number |
| Cells.CellAt | src/services/xlsxServices.js:35 | `row[col]` inside the row, and undefined past its end |
| XlsxRender.XlsxRenderer.constructor | src/services/xlsxServices.js:10-15 | one empty page, the cursor and `tableStartY` at `height - margin`, nothing placed |
| XlsxRender.TableBorder | src/services/xlsxServices.js:214-223 | the outline drawn by the calls at lines 83 and 170 is a frame at the left margin, as wide as the columns, whose top edge is `tableStartY` and whose bottom edge is `height - yPosition`; the bottom edge is the cursor exactly when the cursor is halfway down the page |
| XlsxRender.TitleOp | src/services/xlsxServices.js:60-66 | the title is the sheet name at the left margin and at the cursor, in bold at 14 points |
| XlsxRender.TitleKept | src/services/xlsxServices.js:60-66 | a title stays where it was drawn, whatever is drawn after it |
| XlsxRender.XlsxRenderer.AddPage | src/services/xlsxServices.js:56-57 | a new empty page is appended, the cursor resets to `height - margin`, nothing drawn is changed |
| XlsxRender.XlsxRenderer.Draw | src/services/xlsxServices.js:60-66 | draw calls are appended to the current page only |
| XlsxRender.XlsxRenderer.DrawLines | src/services/xlsxServices.js:146-156 | one text run per line, each a line height below the previous |
| XlsxRender.XlsxRenderer.BreakPage | src/services/xlsxServices.js:81-88 | the outline is drawn on the old page, then a new page starts and both the cursor and `tableStartY` reset to `height - margin` |
| XlsxRender.XlsxRenderer.DrawCell | src/services/xlsxServices.js:104-158 | a cell draws its header shading, four borders and wrapped text, in that order |
| XlsxRender.XlsxRenderer.DrawCells | src/services/xlsxServices.js:100-159 | the row's cells are drawn side by side from the left margin, exactly as `RowOps` |
| XlsxRender.XlsxRenderer.DrawRowAt | src/services/xlsxServices.js:90-166 | the whole row is drawn as one block on the current page, its placement is recorded, and the cursor drops by the row height plus 2 after the header |
| XlsxRender.XlsxRenderer.DrawRow | src/services/xlsxServices.js:73-166 | a new page starts before the row exactly when `yPosition < margin + lineHeight`, after the outline is drawn on the old page; the row then sits wholly on the last page, at `height - margin` after a break and at the cursor otherwise; the cursor drops by the row height, 2 more after the header |
| XlsxRender.RowPages | src/services/xlsxServices.js:81-166 | one row adds a page exactly when the cursor is below `margin + lineHeight`, and the last page then holds only that row, at `height - margin`; otherwise the row is appended to the current page at the cursor |
| XlsxRender.XlsxRenderer.DrawTitle | src/services/xlsxServices.js:55-67 | a new page starts before the title exactly when `yPosition < margin + 4·fontSize`; the title is drawn bold at size 14, alone at the start of that new page or at the end of the current one, at the cursor, and nothing else is drawn (`TitlePages`); the cursor then drops by `3·fontSize` |
| XlsxRender.XlsxRenderer.DrawTableRow | src/services/xlsxServices.js:73-166 | one iteration of the row loop: the pages become exactly `TablePages` for k + 1 rows (the outline of the page left behind and a fresh page when the cursor is below `margin + lineHeight`, then the row); row k is drawn as the header exactly when k is 0, with the table widths, and is recorded with the top and page the loop gives it; both cursors move on as `TableCursor` says |
| XlsxRender.XlsxRenderer.DrawTable | src/services/xlsxServices.js:73-167 | the pages are exactly `TablePages`: row after row, a break (outline of the page left behind, then a fresh page) exactly when the cursor is below `margin + lineHeight`, and the row at the cursor or at `height - margin` after a break; every row is drawn once, in order, the first as the header, all with the sheet's widths, and each row's top and page are where the cursor put it (`RowsAt`); the final cursors are those of `TableCursor` |
| XlsxRender.RowsAtEach | src/services/xlsxServices.js:73-166 | row j of a table has its top at the cursor the first j rows leave, or at `height - margin` when that is below `margin + lineHeight`, and lies on the page after the one the first j rows end on exactly in that case |
| XlsxRender.XlsxRenderer.CloseTable | src/services/xlsxServices.js:169-172 | exactly one draw call is added, the outline from `tableStartY` down to the cursor, on the current page; then the cursor drops by `3·fontSize` |
| XlsxRender.XlsxRenderer.DrawSheet | src/services/xlsxServices.js:52-172 | the pages and cursors are exactly `SheetDoc`: the title (placed as `DrawTitle` says), the rows as `TablePages` from both cursors `3·fontSize` below the title, then the outline from the final `tableStartY` to the final row cursor as the last draw call; the cursor ends `3·fontSize` below the last row; each row's top and page are where the cursor put it |
| XlsxRender.XlsxRenderer.RenderSheet | src/services/xlsxServices.js:22-173 | the pages and cursors are exactly `RenderedSheet`: an empty sheet changes nothing; otherwise the sheet is drawn as `DrawSheet` states with its normalised clamped widths, and its rows are placed in order at the tops and pages the cursor gives them (`SheetRows`) |
| XlsxRender.XlsxRenderer.RenderWorkbook | src/services/xlsxServices.js:22-173 | the pages and cursors are exactly `WorkbookDoc`, sheet after sheet; the placements are the sheets' rows one sheet after the other, each sheet placed as `SheetRows` says from the state the sheets before it left; their rows are exactly the workbook's rows; nothing already drawn is changed |
| XlsxRender.XlsxRenderer.RenderNextSheet | src/services/xlsxServices.js:22-173 | one iteration of the sheet loop: the state becomes `WorkbookDoc` of one more sheet, and sheet s's rows follow those of the sheets before it, placed as `SheetRows` says |
| XlsxRender.ConvertXlsx | src/services/xlsxServices.js:4-185 | the pages are exactly `WorkbookDoc` from one empty page with both cursors at `height - margin`: titles, rows with their page breaks and outlines, closing outlines and gaps, sheet after sheet; the placements are the sheets' tables in workbook order, each row with its sheet's widths, the first of each sheet as the header, at the top and on the page its cursor gives it; each row's draw calls sit as one contiguous block on that page, and the blocks appear in the document in that same order without overlap; the download name drops the first `.xlsx` and appends `.pdf` |
| XlsxRender.OrderExtended | src/services/xlsxServices.js:73-166 | a row drawn at the current end of the last page comes after every row drawn before it, so rows stay in drawing order |
| Pdf.BlockKept | src/services/xlsxServices.js:60-158 | drawing more never disturbs a block drawn earlier |
| Text.Split | src/services/xlsxServices.js:194 | `split(' ')` gives at least one piece and no piece holds the separator |
| Text.JoinSplit | src/services/xlsxServices.js:194 | joining the pieces of `split(sep)` with `sep` gives back the string |
| Text.Join | src/services/ai/aiService.js:56 | `join` of no parts is the empty string, and otherwise starts with the first part |
| Text.SplitJoin | src/services/docxServices.js:36 | splitting a join of separator-free pieces gives the pieces back |
| Text.Repeat | src/services/ai/aiService.js:51 | `c.repeat(n)` has length `n` and every character is `c` |
| Text.FindFirst | src/services/docxServices.js:84 | the first occurrence of the pattern, or none when it does not occur |
| Text.DownloadName | src/services/docxServices.js:84 | the download name always ends in `.pdf` |
| Text.FirstOccurrence | src/services/docxServices.js:84 | `replace` with a string pattern acts at the earliest index where the pattern occurs |
| Text.ReplaceFirstSpec | src/services/docxServices.js:84 | `replace` with a string pattern leaves a string without the pattern alone; at the earliest occurrence, wherever it stands, it replaces that occurrence only |
| Text.DownloadNameSpec | src/services/docxServices.js:84 | with no `.docx` in the name, the name plus `.pdf`; otherwise the first occurrence, wherever it is, is removed and later ones stay |
| DocxRender.TrimBlank | src/services/docxServices.js:26 | `trim()` gives the empty string exactly when every character is JavaScript whitespace |
| DocxRender.TrimStartSpec | src/services/docxServices.js:26 | trimming the start leaves a string that is empty or starts with a non-whitespace character, and removes only whitespace |
| DocxRender.TrimEndSpec | src/services/docxServices.js:26 | trimming the end leaves a string that is empty or ends with a non-whitespace character, and removes only whitespace |
| DocxRender.KeepNonBlank | src/services/docxServices.js:26 | the filter never yields more paragraphs than there are lines |
| DocxRender.KeepNonBlankKeepsContent | src/services/docxServices.js:26 | every kept paragraph has non-whitespace content after `trim()` |
| DocxRender.KeepNonBlankSound | src/services/docxServices.js:26 | every paragraph is a line of the input |
| DocxRender.KeepNonBlankComplete | src/services/docxServices.js:26 | every line with non-whitespace content becomes a paragraph |
| DocxRender.KeepNonBlankAppend | src/services/docxServices.js:26 | the filter keeps order: filtering a concatenation concatenates the filtered parts |
| DocxRender.KeepNonBlankAll | src/services/docxServices.js:26 | a text with no blank line loses nothing |
| DocxRender.Paragraphs | src/services/docxServices.js:26 | there are never more paragraphs than lines |
| DocxRender.BreakFrom | src/services/docxServices.js:39-63 | the word loop flushes at most one line per word |
| DocxRender.BreakLines | src/services/docxServices.js:36-75 | a paragraph is drawn as at most one line more than it has words |
| DocxRender.BreakLinesFit | src/services/docxServices.js:39-63 | every drawn line measures at most `width - 2·margin` unless it holds no space (a single word, or the empty line flushed when the first word alone overflows) |
| DocxRender.FirstWordTooWide | src/services/docxServices.js:40-53 | when a paragraph's first word alone overflows, the paragraph's first drawn line is empty |
| DocxRender.BreakLinesJoin | src/services/docxServices.js:36-75 | when no word is empty and the first word fits, the drawn lines joined by single spaces give back the paragraph |
| DocxRender.DocxRenderer.constructor | src/services/docxServices.js:14-20 | one empty page of the given size, cursor at `height - margin` |
| DocxRender.DocxRenderer.BreakIfLow | src/services/docxServices.js:29-33 | a new page starts exactly when `yPosition < margin + fontSize`, and the cursor then resets to `height - margin` (`Settle`); the cursor ends at or above `margin + fontSize`; the drawn text is unchanged |
| DocxRender.DocxRenderer.DrawLine | src/services/docxServices.js:45-52 | one text run (here and for the leftover line at lines 66-74) at the left margin and at the cursor, appended to the current page; the cursor drops by the given advance (a line height, or 1.2 line heights after a paragraph); the text drawn gains exactly that line |
| DocxRender.DocxRenderer.FlushLine | src/services/docxServices.js:45-59 | a flushed line is drawn at the cursor, the cursor drops one line height and the page-break check follows (`Flush`) |
| DocxRender.DocxRenderer.PlaceWord | src/services/docxServices.js:39-63 | on overflow the current line is flushed as `Flush` says (drawn, cursor one line height lower, page-break check) and the word starts the next line; otherwise the word joins the current line and nothing is drawn and the cursor stays |
| DocxRender.DocxRenderer.WordLoop | src/services/docxServices.js:36-63 | the word loop flushes exactly the lines `BreakFrom` emits, one `Flush` each, and leaves its leftover in the current line |
| DocxRender.DocxRenderer.RenderParagraph | src/services/docxServices.js:28-76 | the pages and cursor after a paragraph are `ParagraphDoc`: the page-break check, one `Flush` per flushed line, then the leftover line if it is not empty, after which the cursor drops by 1.2 line heights; an empty leftover draws nothing and leaves the cursor; the text drawn is exactly `BreakLines` |
| DocxRender.DocxRenderer.RenderParagraphs | src/services/docxServices.js:28-76 | the pages and cursor after the paragraph loop are `DocumentDoc`, paragraph after paragraph; their lines are drawn in order |
| DocxRender.ConvertDocx | src/services/docxServices.js:5-88 | the pages are exactly those the paragraph loop produces from one empty page with the cursor at `height - margin`; their text runs are the broken lines of the non-blank paragraphs in order, every one at the left margin in 12-point Helvetica between `margin + fontSize` and `height - margin`, and on each page every line lies at least a line height below the one before; the download name drops the first `.docx` and appends `.pdf` |
| SheetText.Coalesce | src/services/ai/aiService.js:62 | `?? ''` removes null and leaves every other value as it is |
| SheetText.DataLineIsHeaderLine | src/services/ai/aiService.js:56-62 | a data row is written exactly as the header row would be: `?? ''` changes nothing before `join` |
| SheetText.EmptyCellsLine | src/services/ai/aiService.js:62 | a row of undefined and null cells is written as empty fields between separators |
| SheetText.HeaderLine | src/services/ai/aiService.js:55-57 | an empty header row gives an empty line, and so an empty dash rule; otherwise the line starts with the first cell |
| SheetText.TableLinesShape | src/services/ai/aiService.js:53-63 | a sheet with rows writes the header, a `-` rule as long as the header, then every later row in order; a sheet without rows writes nothing here |
| SheetText.BlockLinesShape | src/services/ai/aiService.js:50-65 | a block is the title, 40 `=`, then for a sheet with rows the header, a `-` rule exactly as long as the header and every later row in order; a blank line ends it |
| SheetText.SheetBlockStart | src/services/ai/aiService.js:50-51 | every block starts with `"Sheet: " + name + "\n"` and 40 `=` followed by a line feed |
| SheetText.SheetBlockEnd | src/services/ai/aiService.js:65 | every block ends with two line feeds |
| SheetText.EmptySheetBlock | src/services/ai/aiService.js:50-65 | an empty sheet gives only its title, the `=` rule and a blank line |
| SheetText.SheetBlockLines | src/services/ai/aiService.js:50-65 | when no name or written row holds a line feed, splitting a block at line feeds gives back exactly its lines |
| SheetText.SplitUnlines | src/services/ai/aiService.js:50-65 | lines without line feeds, each followed by one, can be split back into those lines |
| SheetText.WorkbookTextAppend | src/services/ai/aiService.js:46-66 | sheets are written in workbook order: the text of a concatenation of sheets is the concatenation of their texts |
| SheetText.AppendRows | src/services/ai/aiService.js:60-63 | the row loop appends one line per data row, in order |
| SheetText.AppendSheet | src/services/ai/aiService.js:50-65 | one sheet's iteration appends exactly that sheet's block |
| SheetText.ExtractSheetText | src/services/ai/aiService.js:46-66 | the accumulated text is exactly the sheets' blocks in workbook order |

## Left out

- File reading and parsing are not modelled. This covers `file.arrayBuffer()`, `XLSX.read`, `sheet_to_json`, `mammoth.extractRawText`, and the FileReader branches. A workbook is an input sequence of sheets, each a name and a grid of cells. A document is its extracted text.
- `measure` stands for pdf-lib's font metrics (`widthOfTextAtSize` at the fixed size). The table converter measures header text with the regular font although it draws it bold, and the model keeps that.
- PDF output is not modelled: font embedding, `save`, and the Blob/URL/anchor download. Colours and line thicknesses are constants at each call site and are not recorded.
- `async`/`await` and the `try`/`catch` that logs and rethrows are not modelled.
- pdf-lib's standard fonts encode text in WinAnsi. `widthOfTextAtSize` and `drawText` throw on a character outside that set (`src/services/xlsxServices.js:37,60-66,94,146-156`, `src/services/docxServices.js:41,45,67`). The common case is a line feed inside a cell or a sheet name, which the spreadsheet converter passes on unsplit, and the `catch` rethrows it (`src/services/xlsxServices.js:186-189`, `src/services/docxServices.js:89-92`). The model covers only text the font can encode: `measure` is total, and ConvertXlsx and ConvertDocx return a document for every input.
- Floating point is not modelled: doubles are exact reals.
  - `lineHeight * 1.2` is 21.6 exactly.
  - The scale-down branch of the column widths is unreachable in exact arithmetic but may fire through rounding.
  - `toFixed` and the locale date of the metadata header are out.
- A number cell holds the text `String(n)` gives for it. How JavaScript formats numbers is not modelled.
- A missing entry and `undefined` are the same cell (`Absent`), because every path renders them the same.
- The dash rule's length is the header's length in characters. JavaScript counts UTF-16 code units, so the two differ for characters outside the Basic Multilingual Plane.
- `isLastSection`, the sixth argument of `drawTableBorders`, is unused by the code, so it is not modelled.
- `analyzeDocument` is not part of this model: it is a network call to a language model. The PDF, DOCX and plain-text branches of `extractTextFromFile` and its metadata header are not part of it either.
- The UI components and `src/services/pdfServices.js` are not part of this model.
- DocxRender.ConvertDocx requires a page at least `2·margin + fontSize` tall, so that a fresh page can hold a line. The code does not check this; the page it takes, A4, meets it.
