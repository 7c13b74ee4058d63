/** The layout rules of the spreadsheet-to-PDF converter: the greedy word
    wrapper, the column-width allocation, the row-height rule and the draw calls
    one table row produces. Font metrics are the parameter `measure`, the width
    of a string in the regular font at the table's font size. */
module XlsxLayout {
  import opened Text
  import opened Cells
  import opened Pdf

  // A4 landscape page and the converter's fixed geometry.
  const PageWidth: real := 842.0
  const PageHeight: real := 595.0
  const FontSize: real := 10.0
  const Margin: real := 50.0
  const TableWidth: real := 742.0  // PageWidth - Margin * 2
  const LineHeight: real := 15.0  // FontSize * 1.5
  const CellPadding: real := 5.0
  /** Where the cursor stands on a fresh page. */
  const Top: real := 545.0  // PageHeight - Margin

  function RealMax(a: real, b: real): real { if a >= b then a else b }
  function RealMin(a: real, b: real): real { if a <= b then a else b }

  // ---------------------------------------------------------------- wrapText

  /** Greedy wrapping of the words still to place, `current` being the line
      under construction: a word joins the line when the joined line measures
      strictly less than maxWidth, otherwise the line is closed. */
  function WrapFrom(current: string, rest: seq<string>, measure: string -> real, maxWidth: real): (lines: seq<string>)
    ensures |lines| >= 1
    decreases |rest|
  {
    if rest == [] then [current]
    else
      var candidate := current + " " + rest[0];
      if measure(candidate) < maxWidth then WrapFrom(candidate, rest[1..], measure, maxWidth)
      else [current] + WrapFrom(rest[0], rest[1..], measure, maxWidth)
  }

  /** The lines `wrapText(text, font, fontSize, maxWidth)` returns. */
  function Wrap(text: string, measure: string -> real, maxWidth: real): (lines: seq<string>)
    ensures |lines| >= 1
    ensures text == "" ==> lines == [""]
  {
    var words := Split(text, ' ');
    WrapFrom(words[0], words[1..], measure, maxWidth)
  }

  method WrapText(text: string, measure: string -> real, maxWidth: real) returns (lines: seq<string>)
    ensures lines == Wrap(text, measure, maxWidth)
  {
    var words := Split(text, ' ');
    lines := [];
    var currentLine := words[0];
    var i := 1;
    while i < |words|
      invariant 1 <= i <= |words|
      invariant lines + WrapFrom(currentLine, words[i..], measure, maxWidth) == Wrap(text, measure, maxWidth)
    {
      var word := words[i];
      var width := measure(currentLine + " " + word);
      assert words[i..][1..] == words[i + 1..];
      if width < maxWidth {
        currentLine := currentLine + " " + word;
      } else {
        lines := lines + [currentLine];
        currentLine := word;
      }
      i := i + 1;
    }
    lines := lines + [currentLine];
  }

  lemma {:induction false} WrapFromJoin(current: string, rest: seq<string>, measure: string -> real, maxWidth: real)
    ensures Join(WrapFrom(current, rest, measure, maxWidth), " ") == Join([current] + rest, " ")
    decreases |rest|
  {
    if rest != [] {
      var candidate := current + " " + rest[0];
      if measure(candidate) < maxWidth {
        WrapFromJoin(candidate, rest[1..], measure, maxWidth);
        if |rest| == 1 {
          assert [candidate] + rest[1..] == [candidate];
        } else {
          assert ([candidate] + rest[1..])[1..] == rest[1..];
          assert ([current] + rest)[1..] == rest;
          assert ([rest[0]] + rest[1..]) == rest;
        }
      } else {
        var tail := WrapFrom(rest[0], rest[1..], measure, maxWidth);
        WrapFromJoin(rest[0], rest[1..], measure, maxWidth);
        assert ([current] + tail)[1..] == tail;
        assert ([current] + rest)[1..] == rest;
        assert [rest[0]] + rest[1..] == rest;
      }
    }
  }

  /** Round trip: the wrapped lines joined by single spaces give back the text,
      since the text is split on single spaces only. */
  lemma WrapJoin(text: string, measure: string -> real, maxWidth: real)
    ensures Join(Wrap(text, measure, maxWidth), " ") == text
  {
    var words := Split(text, ' ');
    WrapFromJoin(words[0], words[1..], measure, maxWidth);
    assert [words[0]] + words[1..] == words;
    JoinSplit(text, ' ');
  }

  predicate MultiWordLinesFit(lines: seq<string>, measure: string -> real, maxWidth: real)
  {
    forall k :: 0 <= k < |lines| && ' ' in lines[k] ==> measure(lines[k]) < maxWidth
  }

  lemma {:induction false} WrapFromFits(current: string, rest: seq<string>, measure: string -> real, maxWidth: real)
    requires ' ' !in current || measure(current) < maxWidth
    requires forall i :: 0 <= i < |rest| ==> ' ' !in rest[i]
    ensures MultiWordLinesFit(WrapFrom(current, rest, measure, maxWidth), measure, maxWidth)
    decreases |rest|
  {
    if rest != [] {
      var candidate := current + " " + rest[0];
      NoSpaceInWords(rest);
      if measure(candidate) < maxWidth {
        WrapFromFits(candidate, rest[1..], measure, maxWidth);
      } else {
        WrapFromFits(rest[0], rest[1..], measure, maxWidth);
        var tail := WrapFrom(rest[0], rest[1..], measure, maxWidth);
        var lines := [current] + tail;
        forall k | 0 <= k < |lines| && ' ' in lines[k] ensures measure(lines[k]) < maxWidth {
          if k > 0 { assert lines[k] == tail[k - 1]; }
        }
      }
    }
  }

  lemma NoSpaceInWords(words: seq<string>)
    requires |words| >= 1 && forall i :: 0 <= i < |words| ==> ' ' !in words[i]
    ensures forall i :: 0 <= i < |words[1..]| ==> ' ' !in words[1..][i]
  {
    forall i | 0 <= i < |words[1..]| ensures ' ' !in words[1..][i] { assert words[1..][i] == words[i + 1]; }
  }

  /** A line holding two or more words measures strictly less than maxWidth;
      only a single word can overflow its line. */
  lemma WrapFits(text: string, measure: string -> real, maxWidth: real)
    ensures MultiWordLinesFit(Wrap(text, measure, maxWidth), measure, maxWidth)
  {
    var words := Split(text, ' ');
    NoSpaceInWords(words);
    WrapFromFits(words[0], words[1..], measure, maxWidth);
  }

  /** The first word of a line. */
  function FirstWord(line: string): string
  {
    Split(line, ' ')[0]
  }

  lemma {:induction false} WrapFromHead(current: string, rest: seq<string>, measure: string -> real, maxWidth: real)
    requires ' ' !in current
    ensures FirstWord(WrapFrom(current, rest, measure, maxWidth)[0]) == current
    decreases |rest|
  {
    var head := WrapFrom(current, rest, measure, maxWidth)[0];
    if rest == [] || measure(current + " " + rest[0]) >= maxWidth {
      assert head == current;
      SplitNoSeparator(current, ' ');
    } else {
      WrapFromHeadPrefix(current + " " + rest[0], rest[1..], measure, maxWidth);
      var tail := head[|current| + 1..];
      assert head == current + [' '] + tail;
      FirstPiece(current, tail, ' ');
    }
  }

  lemma {:induction false} WrapFromHeadPrefix(current: string, rest: seq<string>, measure: string -> real, maxWidth: real)
    ensures var head := WrapFrom(current, rest, measure, maxWidth)[0];
            |current| <= |head| && head[..|current|] == current
    decreases |rest|
  {
    if rest != [] {
      var candidate := current + " " + rest[0];
      if measure(candidate) < maxWidth {
        WrapFromHeadPrefix(candidate, rest[1..], measure, maxWidth);
        var head := WrapFrom(candidate, rest[1..], measure, maxWidth)[0];
        assert head[..|current|] == head[..|candidate|][..|current|];
      }
    }
  }

  /** Each line but the last was closed because the next line's first word did
      not fit on it. */
  predicate Greedy(lines: seq<string>, measure: string -> real, maxWidth: real)
  {
    forall k :: 0 <= k < |lines| - 1 ==> measure(lines[k] + " " + FirstWord(lines[k + 1])) >= maxWidth
  }

  lemma {:induction false} WrapFromGreedy(current: string, rest: seq<string>, measure: string -> real, maxWidth: real)
    requires forall i :: 0 <= i < |rest| ==> ' ' !in rest[i]
    ensures Greedy(WrapFrom(current, rest, measure, maxWidth), measure, maxWidth)
    decreases |rest|
  {
    if rest != [] {
      var candidate := current + " " + rest[0];
      NoSpaceInWords(rest);
      if measure(candidate) < maxWidth {
        WrapFromGreedy(candidate, rest[1..], measure, maxWidth);
      } else {
        var tail := WrapFrom(rest[0], rest[1..], measure, maxWidth);
        WrapFromGreedy(rest[0], rest[1..], measure, maxWidth);
        WrapFromHead(rest[0], rest[1..], measure, maxWidth);
        var lines := [current] + tail;
        forall k | 0 <= k < |lines| - 1
          ensures measure(lines[k] + " " + FirstWord(lines[k + 1])) >= maxWidth
        {
          if k > 0 {
            assert lines[k] == tail[k - 1] && lines[k + 1] == tail[k];
          }
        }
      }
    }
  }

  /** Greedy: a line is closed only when the next line's first word would not
      have fitted on it. */
  lemma WrapGreedy(text: string, measure: string -> real, maxWidth: real)
    ensures Greedy(Wrap(text, measure, maxWidth), measure, maxWidth)
  {
    var words := Split(text, ' ');
    NoSpaceInWords(words);
    WrapFromGreedy(words[0], words[1..], measure, maxWidth);
  }

  // ---------------------------------------------------------- column widths

  /** `Math.max(...data.map(row => row.length))`. */
  function MaxColumns(data: seq<Row>): nat
    decreases |data|
  {
    if |data| == 0 then 0
    else
      var n := MaxColumns(data[..|data| - 1]);
      if |data[|data| - 1]| > n then |data[|data| - 1]| else n
  }

  /** The column count is the length of the longest row. */
  lemma {:induction false} MaxColumnsIsMax(data: seq<Row>)
    ensures forall i :: 0 <= i < |data| ==> |data[i]| <= MaxColumns(data)
    ensures |data| > 0 ==> exists i :: 0 <= i < |data| && |data[i]| == MaxColumns(data)
    decreases |data|
  {
    if |data| > 0 {
      var n := |data| - 1;
      var init := data[..n];
      MaxColumnsIsMax(init);
      forall i | 0 <= i < n ensures |data[i]| <= MaxColumns(data) {
        assert init[i] == data[i];
      }
      if n > 0 && MaxColumns(init) >= |data[n]| {
        var j :| 0 <= j < n && |init[j]| == MaxColumns(init);
        assert init[j] == data[j];
      }
    }
  }

  /** The widest measured text of column col, over all rows. */
  function ContentWidth(data: seq<Row>, col: nat, measure: string -> real): real
    requires |data| > 0
    decreases |data|
  {
    var last := measure(CellText(CellAt(data[|data| - 1], col)));
    if |data| == 1 then last
    else RealMax(ContentWidth(data[..|data| - 1], col, measure), last)
  }

  /** A column's content width is its widest cell text, missing cells
      measured as the empty string. */
  lemma {:induction false} ContentWidthIsMax(data: seq<Row>, col: nat, measure: string -> real)
    requires |data| > 0
    ensures forall i :: 0 <= i < |data| ==> measure(CellText(CellAt(data[i], col))) <= ContentWidth(data, col, measure)
    ensures exists i :: 0 <= i < |data| && measure(CellText(CellAt(data[i], col))) == ContentWidth(data, col, measure)
    decreases |data|
  {
    var n := |data| - 1;
    if n > 0 {
      var init := data[..n];
      ContentWidthIsMax(init, col, measure);
      forall i | 0 <= i < n ensures measure(CellText(CellAt(data[i], col))) <= ContentWidth(data, col, measure) {
        assert init[i] == data[i];
      }
      if ContentWidth(init, col, measure) >= measure(CellText(CellAt(data[n], col))) {
        var j :| 0 <= j < n && measure(CellText(CellAt(init[j], col))) == ContentWidth(init, col, measure);
        assert init[j] == data[j];
      }
    }
  }

  /** A column's width before normalisation: its content plus 10, capped at an
      even share of the table width. */
  function ClampedWidth(data: seq<Row>, col: nat, measure: string -> real): (w: real)
    requires |data| > 0 && col < MaxColumns(data)
    ensures w <= ContentWidth(data, col, measure) + 10.0 && w <= TableWidth / (MaxColumns(data) as real)
    ensures w == ContentWidth(data, col, measure) + 10.0 || w == TableWidth / (MaxColumns(data) as real)
  {
    RealMin(ContentWidth(data, col, measure) + 10.0, TableWidth / (MaxColumns(data) as real))
  }

  function ClampedWidths(data: seq<Row>, measure: string -> real): seq<real>
    requires |data| > 0
  {
    seq(MaxColumns(data), c requires 0 <= c < MaxColumns(data) => ClampedWidth(data, c, measure))
  }

  /** `widths.reduce((sum, w) => sum + w, 0)`. */
  function Sum(ws: seq<real>): real
    decreases |ws|
  {
    if |ws| == 0 then 0.0 else Sum(ws[..|ws| - 1]) + ws[|ws| - 1]
  }

  function Scale(ws: seq<real>, ratio: real): seq<real>
  {
    seq(|ws|, i requires 0 <= i < |ws| => ws[i] * ratio)
  }

  /** The normalisation step: widths whose total exceeds the table width are all
      multiplied by the same ratio `TableWidth / total`; otherwise they are kept. */
  function Normalised(ws: seq<real>): (r: seq<real>)
    ensures |r| == |ws|
    ensures Sum(ws) <= TableWidth ==> r == ws
  {
    var total := Sum(ws);
    if total > TableWidth then Scale(ws, TableWidth / total) else ws
  }

  lemma {:induction false} SumScale(ws: seq<real>, ratio: real)
    ensures Sum(Scale(ws, ratio)) == Sum(ws) * ratio
    decreases |ws|
  {
    if |ws| > 0 {
      var init := ws[..|ws| - 1];
      SumScale(init, ratio);
      assert Scale(ws, ratio)[..|ws| - 1] == Scale(init, ratio) by {
        forall i | 0 <= i < |init| ensures Scale(ws, ratio)[..|ws| - 1][i] == Scale(init, ratio)[i] {}
      }
      calc {
        Sum(Scale(ws, ratio));
        Sum(Scale(init, ratio)) + ws[|ws| - 1] * ratio;
        Sum(init) * ratio + ws[|ws| - 1] * ratio;
        (Sum(init) + ws[|ws| - 1]) * ratio;
      }
    }
  }

  /** Whatever the widths, after normalisation they fit the table width, and
      when the scale-down fires they fill it exactly. */
  lemma NormalisedFits(ws: seq<real>)
    ensures |Normalised(ws)| == |ws|
    ensures Sum(Normalised(ws)) <= TableWidth
    ensures Sum(ws) > TableWidth ==> Sum(Normalised(ws)) == TableWidth
  {
    if Sum(ws) > TableWidth {
      SumScale(ws, TableWidth / Sum(ws));
    }
  }

  /** When the scale-down fires, every width is multiplied by one ratio strictly
      between 0 and 1, so every positive width strictly shrinks. */
  lemma NormalisedShrinks(ws: seq<real>)
    requires Sum(ws) > TableWidth
    ensures var ratio := TableWidth / Sum(ws);
            && 0.0 < ratio < 1.0
            && (forall i :: 0 <= i < |ws| ==> Normalised(ws)[i] == ws[i] * ratio)
            && (forall i :: 0 <= i < |ws| && ws[i] > 0.0 ==> Normalised(ws)[i] < ws[i])
  {
    var ratio := TableWidth / Sum(ws);
    RatioBelowOne(TableWidth, Sum(ws));
    var scaled := Normalised(ws);
    assert scaled == Scale(ws, ratio);
    forall i | 0 <= i < |ws| && ws[i] > 0.0 ensures scaled[i] < ws[i] {
      ShrinkBy(ws[i], ratio, scaled[i]);
    }
  }

  lemma RatioBelowOne(a: real, b: real)
    requires 0.0 < a < b
    ensures 0.0 < a / b < 1.0
  {
    var r := a / b;
    assert r * b == a;
    FactorBelowOne(r, b, a);
    FactorPositive(r, b, a);
  }

  lemma FactorBelowOne(x: real, b: real, y: real)
    requires b > 0.0 && y == x * b && y < b
    ensures x < 1.0
  {
  }

  lemma FactorPositive(x: real, b: real, y: real)
    requires b > 0.0 && y == x * b && y > 0.0
    ensures x > 0.0
  {
  }

  lemma ShrinkBy(x: real, ratio: real, y: real)
    requires x > 0.0 && 0.0 < ratio < 1.0 && y == x * ratio
    ensures y < x
  {
  }

  /** n widths, none above an n-th of the table width, fit the table width. */
  lemma EvenSharesFit(ws: seq<real>)
    requires |ws| > 0
    requires forall i :: 0 <= i < |ws| ==> ws[i] <= TableWidth / (|ws| as real)
    ensures Sum(ws) <= TableWidth
  {
    var n := |ws| as real;
    var share := TableWidth / n;
    SumBound(ws, share);
    assert n * share == TableWidth;
  }

  lemma {:induction false} SumBound(ws: seq<real>, bound: real)
    requires forall i :: 0 <= i < |ws| ==> ws[i] <= bound
    ensures Sum(ws) <= (|ws| as real) * bound
    decreases |ws|
  {
    if |ws| > 0 {
      SumBound(ws[..|ws| - 1], bound);
    }
  }

  /** The cap alone keeps the columns within the table width, so the
      normalisation branch never changes anything in exact arithmetic. */
  lemma ClampedFits(data: seq<Row>, measure: string -> real)
    requires |data| > 0
    ensures Sum(ClampedWidths(data, measure)) <= TableWidth
    ensures Normalised(ClampedWidths(data, measure)) == ClampedWidths(data, measure)
  {
    var ws := ClampedWidths(data, measure);
    var n := MaxColumns(data);
    if n > 0 {
      var share := TableWidth / (n as real);
      forall i | 0 <= i < |ws| ensures ws[i] <= share {
        assert ws[i] == ClampedWidth(data, i, measure);
      }
      assert |ws| == n;
      EvenSharesFit(ws);
    } else {
      assert ws == [];
    }
  }

  /** The column-width block of the converter: fill one width per column, then
      rescale them in place if their total overflows the table width. */
  method ColumnWidths(data: seq<Row>, measure: string -> real) returns (widths: seq<real>)
    requires |data| > 0
    ensures widths == Normalised(ClampedWidths(data, measure))
    ensures |widths| == MaxColumns(data)
    ensures forall c :: 0 <= c < |widths| ==>
              && widths[c] <= ContentWidth(data, c, measure) + 10.0
              && widths[c] <= TableWidth / (|widths| as real)
    ensures Sum(widths) <= TableWidth
  {
    var maxColumns := MaxColumns(data);
    var columnWidths := new real[maxColumns];
    for col := 0 to maxColumns
      invariant forall c :: 0 <= c < col ==> columnWidths[c] == ClampedWidth(data, c, measure)
    {
      var maxWidth := ContentWidth(data, col, measure);
      columnWidths[col] := RealMin(maxWidth + 10.0, TableWidth / (maxColumns as real));
    }
    ghost var clamped := ClampedWidths(data, measure);
    assert columnWidths[..] == clamped;
    NormaliseInPlace(columnWidths);
    widths := columnWidths[..];
    ClampedFits(data, measure);
    assert widths == clamped;
    forall c | 0 <= c < |widths|
      ensures widths[c] <= ContentWidth(data, c, measure) + 10.0
      ensures widths[c] <= TableWidth / (|widths| as real)
    {
      assert widths[c] == ClampedWidth(data, c, measure);
    }
  }

  /** The rescaling step, in place: when the widths overflow the table width,
      every entry is multiplied by `TableWidth / total`. */
  method NormaliseInPlace(columnWidths: array<real>)
    modifies columnWidths
    ensures columnWidths[..] == Normalised(old(columnWidths[..]))
  {
    var totalWidth := Sum(columnWidths[..]);
    if totalWidth > TableWidth {
      var ratio := TableWidth / totalWidth;
      for i := 0 to columnWidths.Length
        invariant forall c :: 0 <= c < i ==> columnWidths[c] == old(columnWidths[c]) * ratio
        invariant forall c :: i <= c < columnWidths.Length ==> columnWidths[c] == old(columnWidths[c])
      {
        columnWidths[i] := columnWidths[i] * ratio;
      }
      forall c | 0 <= c < columnWidths.Length
        ensures columnWidths[..][c] == Scale(old(columnWidths[..]), ratio)[c]
      {
      }
      assert columnWidths[..] == Scale(old(columnWidths[..]), ratio);
    }
  }

  // ------------------------------------------------------------- row height

  /** A cell's height: its wrapped line count times the line height, plus the
      padding above and below; at least one line. */
  function CellHeight(cell: Cell, width: real, measure: string -> real): (h: real)
    ensures h >= LineHeight + CellPadding * 2.0
  {
    (|Wrap(CellText(cell), measure, width - CellPadding * 2.0)| as real) * LineHeight + CellPadding * 2.0
  }

  lemma CellHeightOfLines(cell: Cell, width: real, measure: string -> real, lines: seq<string>)
    requires lines == Wrap(CellText(cell), measure, width - CellPadding * 2.0)
    ensures (|lines| as real) * LineHeight + CellPadding * 2.0 == CellHeight(cell, width, measure)
  {
  }

  /** `Math.max` folded over heights, starting from one line height: the
      running maximum of the row-height loop. */
  function MaxHeight(hs: seq<real>): (h: real)
    ensures h >= LineHeight
    decreases |hs|
  {
    if |hs| == 0 then LineHeight else RealMax(MaxHeight(hs[..|hs| - 1]), hs[|hs| - 1])
  }

  /** The fold is a maximum: no height exceeds it, and it is the line
      height or one of the heights. */
  lemma {:induction false} MaxHeightIsMax(hs: seq<real>)
    ensures forall i :: 0 <= i < |hs| ==> hs[i] <= MaxHeight(hs)
    ensures |hs| == 0 ==> MaxHeight(hs) == LineHeight
    ensures MaxHeight(hs) == LineHeight || exists i :: 0 <= i < |hs| && MaxHeight(hs) == hs[i]
    decreases |hs|
  {
    if |hs| > 0 {
      var n := |hs| - 1;
      var init := hs[..n];
      MaxHeightIsMax(init);
      var h := MaxHeight(hs);
      assert h == RealMax(MaxHeight(init), hs[n]);
      forall i | 0 <= i < |hs| ensures hs[i] <= h {
        if i < n {
          assert init[i] == hs[i];
        }
      }
      if MaxHeight(init) < hs[n] {
        assert h == hs[n];
      } else if MaxHeight(init) != LineHeight {
        var j :| 0 <= j < n && MaxHeight(init) == init[j];
        assert init[j] == hs[j];
      }
    }
  }

  /** One more height folds into the running maximum. */
  lemma MaxHeightStep(hs: seq<real>, k: nat)
    requires k < |hs|
    ensures MaxHeight(hs[..k + 1]) == RealMax(MaxHeight(hs[..k]), hs[k])
  {
    assert hs[..k + 1][..k] == hs[..k];
  }

  /** The heights of a row's cells, column by column. */
  function CellHeights(row: Row, widths: seq<real>, measure: string -> real): (hs: seq<real>)
    requires |row| <= |widths|
  {
    seq(|row|, i requires 0 <= i < |row| => CellHeight(row[i], widths[i], measure))
  }

  /** A row's height: the largest of its cells' heights, and at least one line
      height (which is all an empty row gets). */
  function RowHeight(row: Row, widths: seq<real>, measure: string -> real): (h: real)
    requires |row| <= |widths|
    ensures h >= LineHeight
  {
    MaxHeight(CellHeights(row, widths, measure))
  }

  /** A row is as tall as its tallest cell: no cell is taller than the row,
      and some cell of a non-empty row is exactly as tall; an empty row is one
      line height tall. */
  lemma RowHeightIsMax(row: Row, widths: seq<real>, measure: string -> real)
    requires |row| <= |widths|
    ensures forall i :: 0 <= i < |row| ==> CellHeight(row[i], widths[i], measure) <= RowHeight(row, widths, measure)
    ensures |row| == 0 ==> RowHeight(row, widths, measure) == LineHeight
    ensures |row| > 0 ==> exists i :: 0 <= i < |row| && RowHeight(row, widths, measure) == CellHeight(row[i], widths[i], measure)
  {
    var hs := CellHeights(row, widths, measure);
    MaxHeightIsMax(hs);
    forall i | 0 <= i < |row| ensures CellHeight(row[i], widths[i], measure) <= RowHeight(row, widths, measure) {
      assert hs[i] == CellHeight(row[i], widths[i], measure);
    }
    if |row| > 0 {
      assert hs[0] >= LineHeight + CellPadding * 2.0;
      var j :| 0 <= j < |hs| && MaxHeight(hs) == hs[j];
      assert hs[j] == CellHeight(row[j], widths[j], measure);
    }
  }

  /** The row-height loop of the converter. */
  method RowHeightOf(row: Row, columnWidths: seq<real>, measure: string -> real) returns (maxRowHeight: real)
    requires |row| <= |columnWidths|
    ensures maxRowHeight == RowHeight(row, columnWidths, measure)
  {
    ghost var hs := CellHeights(row, columnWidths, measure);
    maxRowHeight := LineHeight;
    for colIndex := 0 to |row|
      invariant maxRowHeight == MaxHeight(hs[..colIndex])
    {
      var cellContent := CellText(row[colIndex]);
      var cellWidth := columnWidths[colIndex];
      var lines := WrapText(cellContent, measure, cellWidth - CellPadding * 2.0);
      var cellHeight := (|lines| as real) * LineHeight + CellPadding * 2.0;
      CellHeightOfLines(row[colIndex], cellWidth, measure, lines);
      MaxHeightStep(hs, colIndex);
      maxRowHeight := RealMax(maxRowHeight, cellHeight);
    }
    assert hs[..|row|] == hs;
  }

  // ------------------------------------------------------- a row's draw calls

  /** The left edge of column col: the columns sit side by side from the margin. */
  function CellLeft(widths: seq<real>, col: nat): real
    requires col <= |widths|
  {
    Margin + Sum(widths[..col])
  }

  lemma CellsContiguous(widths: seq<real>, col: nat)
    requires col < |widths|
    ensures CellLeft(widths, 0) == Margin
    ensures CellLeft(widths, col + 1) == CellLeft(widths, col) + widths[col]
  {
    assert widths[..col + 1][..col] == widths[..col];
    assert widths[..0] == [];
  }

  /** The text runs of a cell's lines: one per line, each a line height below the previous. */
  function TextOps(lines: seq<string>, x: real, y: real, font: Font): (r: seq<DrawOp>)
    ensures |r| == |lines|
    ensures forall k :: 0 <= k < |r| ==> r[k].Text? && r[k].text == lines[k] && r[k].x == x && r[k].size == FontSize && r[k].font == font
    ensures |r| > 0 ==> r[0].y == y
    ensures forall k :: 0 < k < |r| ==> r[k].y == r[k - 1].y - LineHeight
  {
    seq(|lines|, k requires 0 <= k < |lines| => Text(lines[k], x, y - (k as real) * LineHeight, FontSize, font))
  }

  /** The four border lines of a cell: top, bottom, left, right. */
  function BorderOps(x: real, top: real, width: real, height: real): (r: seq<DrawOp>)
    ensures |r| == 4 && forall k :: 0 <= k < 4 ==> r[k].Line?
    ensures forall k :: 0 <= k < 2 ==> r[k].y1 == r[k].y2 && r[k].x1 == x && r[k].x2 - r[k].x1 == width
    ensures forall k :: 2 <= k < 4 ==> r[k].x1 == r[k].x2 && r[k].y1 == top && r[k].y1 - r[k].y2 == height
    ensures r[0].y1 == top && r[1].y1 == top - height && r[2].x1 == x && r[3].x1 == x + width
  {
    [ Line(x, top, x + width, top),
      Line(x, top - height, x + width, top - height),
      Line(x, top, x, top - height),
      Line(x + width, top, x + width, top - height) ]
  }

  function BodyFont(header: bool): Font
  {
    if header then HelveticaBold else Helvetica
  }

  /** Everything drawn for one cell: the header shading, the borders, the text. */
  function CellOps(cell: Cell, x: real, top: real, width: real, height: real, header: bool, measure: string -> real): (r: seq<DrawOp>)
    ensures var lines := Wrap(CellText(cell), measure, width - CellPadding * 2.0);
            var k0 := if header then 5 else 4;
            && |r| == k0 + |lines|
            && (r[0].Fill? <==> header)
            && (header ==> r[0] == Fill(x, top - height, width, height))
            && (forall k :: k0 <= k < |r| ==> r[k].Text? && r[k].text == lines[k - k0] && r[k].font == BodyFont(header))
  {
    var lines := Wrap(CellText(cell), measure, width - CellPadding * 2.0);
    (if header then [Fill(x, top - height, width, height)] else [])
    + BorderOps(x, top, width, height)
    + TextOps(lines, x + CellPadding, top - FontSize - CellPadding, BodyFont(header))
  }

  /** A cell's draw calls in full: after the optional shading come exactly
      its four borders, then its wrapped lines as text runs inset by the
      padding, the first a font size and a padding below the top. */
  lemma CellOpsLayout(cell: Cell, x: real, top: real, width: real, height: real, header: bool, measure: string -> real)
    ensures var r := CellOps(cell, x, top, width, height, header, measure);
            var k0 := if header then 5 else 4;
            && k0 <= |r|
            && r[k0 - 4..k0] == BorderOps(x, top, width, height)
            && r[k0..] == TextOps(Wrap(CellText(cell), measure, width - CellPadding * 2.0),
                                  x + CellPadding, top - FontSize - CellPadding, BodyFont(header))
  {
    var fill: seq<DrawOp> := if header then [Fill(x, top - height, width, height)] else [];
    var borders := BorderOps(x, top, width, height);
    var texts := TextOps(Wrap(CellText(cell), measure, width - CellPadding * 2.0),
                         x + CellPadding, top - FontSize - CellPadding, BodyFont(header));
    var r := fill + borders + texts;
    assert r[|fill|..|fill| + 4] == borders;
    assert r[|fill| + 4..] == texts;
  }

  /** Everything drawn for a row whose top is at `top`, cell after cell. */
  function RowOps(row: Row, widths: seq<real>, top: real, height: real, header: bool, measure: string -> real): seq<DrawOp>
    requires |row| <= |widths|
    decreases |row|
  {
    if |row| == 0 then []
    else
      var col := |row| - 1;
      RowOps(row[..col], widths, top, height, header, measure)
      + CellOps(row[col], CellLeft(widths, col), top, widths[col], height, header, measure)
  }

  /** A draw call lies vertically between bottom and top. */
  predicate InBand(op: DrawOp, bottom: real, top: real)
  {
    match op
    case Text(_, _, y, _, _) => bottom <= y <= top
    case Line(_, y1, _, y2) => bottom <= y1 <= top && bottom <= y2 <= top
    case Fill(_, y, _, h) => bottom <= y && 0.0 <= h && y + h <= top
    case Frame(_, y, _, h) => bottom <= y && 0.0 <= h && y + h <= top
  }

  lemma CellInBand(cell: Cell, x: real, top: real, width: real, height: real, header: bool, measure: string -> real)
    requires CellHeight(cell, width, measure) <= height
    ensures AllInBand(CellOps(cell, x, top, width, height, header, measure), top - height, top)
  {
    var lines := Wrap(CellText(cell), measure, width - CellPadding * 2.0);
    var texts := TextOps(lines, x + CellPadding, top - FontSize - CellPadding, BodyFont(header));
    forall k | 0 <= k < |texts| ensures InBand(texts[k], top - height, top) {
      assert (k as real) <= (|lines| as real) - 1.0;
    }
  }

  predicate AllInBand(ops: seq<DrawOp>, bottom: real, top: real)
  {
    forall op :: op in ops ==> InBand(op, bottom, top)
  }

  lemma {:induction false} RowOpsInBand(row: Row, widths: seq<real>, top: real, height: real, header: bool, measure: string -> real)
    requires |row| <= |widths|
    requires forall i :: 0 <= i < |row| ==> CellHeight(row[i], widths[i], measure) <= height
    ensures AllInBand(RowOps(row, widths, top, height, header, measure), top - height, top)
    decreases |row|
  {
    if |row| > 0 {
      var col := |row| - 1;
      RowOpsInBand(row[..col], widths, top, height, header, measure);
      CellInBand(row[col], CellLeft(widths, col), top, widths[col], height, header, measure);
    }
  }

  /** Everything drawn for a row lies between its top and its top minus its height. */
  lemma RowInBand(row: Row, widths: seq<real>, top: real, header: bool, measure: string -> real)
    requires |row| <= |widths|
    ensures AllInBand(RowOps(row, widths, top, RowHeight(row, widths, measure), header, measure),
                      top - RowHeight(row, widths, measure), top)
  {
    RowHeightIsMax(row, widths, measure);
    RowOpsInBand(row, widths, top, RowHeight(row, widths, measure), header, measure);
  }
}
