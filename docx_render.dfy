/** The document-to-PDF converter: the extracted text is cut into paragraphs
    at line feeds, blank ones are dropped, and each paragraph is broken
    greedily into lines drawn top-down, with a page break whenever the cursor
    falls below the bottom margin. */
module DocxRender {
  import opened Text
  import opened Pdf

  const FontSize: real := 12.0
  const LineHeight: real := 18.0        // fontSize * 1.5
  const Margin: real := 50.0
  const ParagraphAdvance: real := 21.6  // lineHeight * 1.2

  /** The pages are whatever size the PDF writer gives a page added without
      one, read back with `getSize()`; the model takes that size as a
      parameter. A line may be `width - margin * 2` wide. */
  function TextWidth(width: real): real
  {
    width - Margin * 2.0
  }

  /** Where the cursor starts on every page: `height - margin`. */
  function TopOf(height: real): real
  {
    height - Margin
  }

  /** The characters `String.prototype.trim` removes: ECMAScript's WhiteSpace
      and LineTerminator code points. */
  predicate IsJsWhitespace(c: char)
  {
    || c == '\t' || c == '\n' || c == '\U{B}' || c == '\U{C}' || c == '\r' || c == ' '
    || c == '\U{A0}' || c == '\U{1680}' || ('\U{2000}' <= c <= '\U{200A}')
    || c == '\U{2028}' || c == '\U{2029}' || c == '\U{202F}' || c == '\U{205F}'
    || c == '\U{3000}' || c == '\U{FEFF}'
  }

  function TrimStart(s: string): string
  {
    if |s| > 0 && IsJsWhitespace(s[0]) then TrimStart(s[1..]) else s
  }

  function TrimEnd(s: string): string
  {
    if |s| > 0 && IsJsWhitespace(s[|s| - 1]) then TrimEnd(s[..|s| - 1]) else s
  }

  /** `s.trim()`. */
  function Trim(s: string): string
  {
    TrimEnd(TrimStart(s))
  }

  /** TrimStart removes a prefix of whitespace and stops at the first other character. */
  lemma {:induction false} TrimStartSpec(s: string)
    ensures |TrimStart(s)| <= |s| && TrimStart(s) == s[|s| - |TrimStart(s)|..]
    ensures |TrimStart(s)| > 0 ==> !IsJsWhitespace(TrimStart(s)[0])
    ensures forall i :: 0 <= i < |s| - |TrimStart(s)| ==> IsJsWhitespace(s[i])
    decreases |s|
  {
    if |s| > 0 && IsJsWhitespace(s[0]) {
      var tail := s[1..];
      TrimStartSpec(tail);
      assert TrimStart(s) == TrimStart(tail);
      forall i | 1 <= i < |s| - |TrimStart(s)| ensures IsJsWhitespace(s[i]) {
        assert s[i] == tail[i - 1];
      }
      assert tail[|tail| - |TrimStart(tail)|..] == s[|s| - |TrimStart(s)|..];
    }
  }

  /** TrimEnd removes a suffix of whitespace and stops at the last other character. */
  lemma {:induction false} TrimEndSpec(s: string)
    ensures |TrimEnd(s)| <= |s| && TrimEnd(s) == s[..|TrimEnd(s)|]
    ensures |TrimEnd(s)| > 0 ==> !IsJsWhitespace(TrimEnd(s)[|TrimEnd(s)| - 1])
    ensures forall i :: |TrimEnd(s)| <= i < |s| ==> IsJsWhitespace(s[i])
    decreases |s|
  {
    if |s| > 0 && IsJsWhitespace(s[|s| - 1]) {
      var init := s[..|s| - 1];
      TrimEndSpec(init);
      assert TrimEnd(s) == TrimEnd(init);
      forall i | |TrimEnd(s)| <= i < |s| - 1 ensures IsJsWhitespace(s[i]) {
        assert s[i] == init[i];
      }
      assert init[..|TrimEnd(init)|] == s[..|TrimEnd(s)|];
    }
  }

  /** A line survives `filter(p => p.trim())` exactly when it holds a
      character that is not whitespace. */
  lemma TrimBlank(s: string)
    ensures Trim(s) == "" <==> forall i :: 0 <= i < |s| ==> IsJsWhitespace(s[i])
  {
    var t := TrimStart(s);
    TrimStartSpec(s);
    TrimEndSpec(t);
    if Trim(s) == "" {
      assert |t| == 0;
    } else {
      var r := Trim(s);
      assert r[0] == t[0];
      assert t[0] == s[|s| - |t|];
    }
  }

  /** `lines.filter(p => p.trim())`. */
  function KeepNonBlank(lines: seq<string>): (kept: seq<string>)
    ensures |kept| <= |lines|
    decreases |lines|
  {
    if |lines| == 0 then []
    else KeepNonBlank(lines[..|lines| - 1]) + KeepLine(lines[|lines| - 1])
  }

  /** What the filter keeps of one line. */
  function KeepLine(line: string): seq<string>
  {
    if Trim(line) != "" then [line] else []
  }

  /** The filter keeps order: filtering a concatenation concatenates the filtered parts. */
  lemma {:induction false} KeepNonBlankAppend(a: seq<string>, b: seq<string>)
    ensures KeepNonBlank(a + b) == KeepNonBlank(a) + KeepNonBlank(b)
    decreases |b|
  {
    if |b| > 0 {
      var b' := b[..|b| - 1];
      var last := b[|b| - 1];
      assert (a + b)[..|a + b| - 1] == a + b';
      assert (a + b)[|a + b| - 1] == last;
      calc {
        KeepNonBlank(a + b);
        KeepNonBlank(a + b') + KeepLine(last);
        { KeepNonBlankAppend(a, b'); }
        (KeepNonBlank(a) + KeepNonBlank(b')) + KeepLine(last);
        { Assoc(KeepNonBlank(a), KeepNonBlank(b'), KeepLine(last)); }
        KeepNonBlank(a) + (KeepNonBlank(b') + KeepLine(last));
        KeepNonBlank(a) + KeepNonBlank(b);
      }
    } else {
      assert a + b == a;
    }
  }

  /** Only lines of the input are kept. */
  lemma {:induction false} KeepNonBlankSound(lines: seq<string>, k: nat)
    requires k < |KeepNonBlank(lines)|
    ensures KeepNonBlank(lines)[k] in lines
    decreases |lines|
  {
    var init := lines[..|lines| - 1];
    if k < |KeepNonBlank(init)| {
      KeepNonBlankSound(init, k);
      assert KeepNonBlank(lines)[k] == KeepNonBlank(init)[k];
    }
  }

  /** Every kept line has non-whitespace content. */
  lemma {:induction false} KeepNonBlankKeepsContent(lines: seq<string>, k: nat)
    requires k < |KeepNonBlank(lines)|
    ensures Trim(KeepNonBlank(lines)[k]) != ""
    decreases |lines|
  {
    var init := lines[..|lines| - 1];
    if k < |KeepNonBlank(init)| {
      KeepNonBlankKeepsContent(init, k);
      assert KeepNonBlank(lines)[k] == KeepNonBlank(init)[k];
    }
  }

  /** Every non-blank line is kept. */
  lemma {:induction false} KeepNonBlankComplete(lines: seq<string>, k: nat)
    requires k < |lines| && Trim(lines[k]) != ""
    ensures lines[k] in KeepNonBlank(lines)
    decreases |lines|
  {
    if k < |lines| - 1 {
      KeepNonBlankComplete(lines[..|lines| - 1], k);
    }
  }

  /** A text with no blank line loses nothing to the filter. */
  lemma {:induction false} KeepNonBlankAll(lines: seq<string>)
    requires forall k :: 0 <= k < |lines| ==> Trim(lines[k]) != ""
    ensures KeepNonBlank(lines) == lines
    decreases |lines|
  {
    if |lines| > 0 {
      var init := lines[..|lines| - 1];
      var last := lines[|lines| - 1];
      forall k | 0 <= k < |init| ensures Trim(init[k]) != "" {
        assert init[k] == lines[k];
      }
      KeepNonBlankAll(init);
      assert KeepLine(last) == [last];
      assert KeepNonBlank(lines) == init + [last];
      assert init + [last] == lines;
    }
  }

  /** `text.split('\n').filter(p => p.trim())`. */
  function Paragraphs(text: string): (paragraphs: seq<string>)
    ensures |paragraphs| <= |Split(text, '\n')|
  {
    KeepNonBlank(Split(text, '\n'))
  }

  /** `currentLine ? `${currentLine} ${word}` : word`. */
  function TestLine(current: string, word: string): string
  {
    if current != "" then current + " " + word else word
  }

  /** The lines a paragraph's word loop draws, and what is left in
      `currentLine` when the words run out. */
  datatype Broken = Broken(emitted: seq<string>, last: string)

  /** The word loop from `current` over `words`: a word that makes the
      trial line wider than the text width flushes the current line (even an
      empty one) and starts the next line with itself. */
  function BreakFrom(current: string, words: seq<string>, measure: string -> real, maxWidth: real): (r: Broken)
    ensures |r.emitted| <= |words|
    decreases |words|
  {
    if |words| == 0 then Broken([], current)
    else
      var test := TestLine(current, words[0]);
      if measure(test) > maxWidth then
        var b := BreakFrom(words[0], words[1..], measure, maxWidth);
        Broken([current] + b.emitted, b.last)
      else
        BreakFrom(test, words[1..], measure, maxWidth)
  }

  lemma BreakFromStep(current: string, words: seq<string>, i: nat, measure: string -> real, maxWidth: real)
    requires i < |words|
    ensures measure(TestLine(current, words[i])) > maxWidth ==>
              BreakFrom(current, words[i..], measure, maxWidth)
              == Broken([current] + BreakFrom(words[i], words[i + 1..], measure, maxWidth).emitted,
                        BreakFrom(words[i], words[i + 1..], measure, maxWidth).last)
    ensures measure(TestLine(current, words[i])) <= maxWidth ==>
              BreakFrom(current, words[i..], measure, maxWidth) == BreakFrom(TestLine(current, words[i]), words[i + 1..], measure, maxWidth)
  {
    assert words[i..][0] == words[i] && words[i..][1..] == words[i + 1..];
  }

  /** The lines drawn for one paragraph: the flushed ones, then what is left
      over if it is not empty. */
  function BreakLines(paragraph: string, measure: string -> real, maxWidth: real): (lines: seq<string>)
    ensures |lines| <= |Split(paragraph, ' ')| + 1
  {
    var b := BreakFrom("", Split(paragraph, ' '), measure, maxWidth);
    b.emitted + (if b.last != "" then [b.last] else [])
  }

  /** A line fits the text width unless it is one word (or empty). */
  predicate LineFits(line: string, measure: string -> real, maxWidth: real)
  {
    ' ' !in line || measure(line) <= maxWidth
  }

  predicate LinesFit(lines: seq<string>, measure: string -> real, maxWidth: real)
  {
    forall k :: 0 <= k < |lines| ==> LineFits(lines[k], measure, maxWidth)
  }

  lemma {:induction false} BreakFromFits(current: string, words: seq<string>, measure: string -> real, maxWidth: real)
    requires LineFits(current, measure, maxWidth)
    requires forall i :: 0 <= i < |words| ==> ' ' !in words[i]
    ensures LinesFit(BreakFrom(current, words, measure, maxWidth).emitted, measure, maxWidth)
    ensures LineFits(BreakFrom(current, words, measure, maxWidth).last, measure, maxWidth)
    decreases |words|
  {
    if |words| > 0 {
      var test := TestLine(current, words[0]);
      assert forall i :: 0 <= i < |words[1..]| ==> words[1..][i] == words[i + 1];
      if measure(test) > maxWidth {
        BreakFromFits(words[0], words[1..], measure, maxWidth);
        var tail := BreakFrom(words[0], words[1..], measure, maxWidth).emitted;
        forall k | 0 <= k < |[current] + tail| ensures LineFits(([current] + tail)[k], measure, maxWidth) {
          if k > 0 { assert ([current] + tail)[k] == tail[k - 1]; }
        }
      } else {
        BreakFromFits(test, words[1..], measure, maxWidth);
      }
    }
  }

  /** Every drawn line measures at most the text width, unless it holds no
      space: a single word too wide on its own, or the empty line flushed when
      a paragraph's first word alone overflows. */
  lemma BreakLinesFit(paragraph: string, measure: string -> real, maxWidth: real)
    ensures LinesFit(BreakLines(paragraph, measure, maxWidth), measure, maxWidth)
  {
    var b := BreakFrom("", Split(paragraph, ' '), measure, maxWidth);
    BreakFromFits("", Split(paragraph, ' '), measure, maxWidth);
    var lines := BreakLines(paragraph, measure, maxWidth);
    forall k | 0 <= k < |lines| ensures LineFits(lines[k], measure, maxWidth) {
      if k < |b.emitted| { assert lines[k] == b.emitted[k]; }
    }
  }

  /** When the first word alone is wider than the text width, the paragraph
      starts with an empty line. */
  lemma FirstWordTooWide(paragraph: string, measure: string -> real, maxWidth: real)
    requires measure(Split(paragraph, ' ')[0]) > maxWidth
    ensures |BreakLines(paragraph, measure, maxWidth)| > 0 && BreakLines(paragraph, measure, maxWidth)[0] == ""
  {
  }

  lemma {:induction false} BreakFromJoin(current: string, words: seq<string>, measure: string -> real, maxWidth: real)
    requires current != ""
    requires forall i :: 0 <= i < |words| ==> words[i] != ""
    ensures BreakFrom(current, words, measure, maxWidth).last != ""
    ensures var b := BreakFrom(current, words, measure, maxWidth);
            Join(b.emitted + [b.last], " ") == Join([current] + words, " ")
    decreases |words|
  {
    if |words| > 0 {
      var test := TestLine(current, words[0]);
      var rest := words[1..];
      assert forall i :: 0 <= i < |rest| ==> rest[i] == words[i + 1];
      assert [words[0]] + rest == words;
      assert ([current] + words)[1..] == words;
      if measure(test) > maxWidth {
        BreakFromJoin(words[0], rest, measure, maxWidth);
        var b := BreakFrom(words[0], rest, measure, maxWidth);
        var lines := b.emitted + [b.last];
        assert ([current] + b.emitted) + [b.last] == [current] + lines;
        assert ([current] + lines)[1..] == lines;
      } else {
        BreakFromJoin(test, rest, measure, maxWidth);
        JoinPrepend(current + " ", words, " ");
        assert [current + " " + words[0]] + rest == [(current + " ") + words[0]] + words[1..];
      }
    }
  }

  /** Round trip: when no word is empty and the first word fits, the drawn
      lines joined by single spaces give back the paragraph, so no word is
      lost or reordered. */
  lemma BreakLinesJoin(paragraph: string, measure: string -> real, maxWidth: real)
    requires forall i :: 0 <= i < |Split(paragraph, ' ')| ==> Split(paragraph, ' ')[i] != ""
    requires measure(Split(paragraph, ' ')[0]) <= maxWidth
    ensures Join(BreakLines(paragraph, measure, maxWidth), " ") == paragraph
  {
    var words := Split(paragraph, ' ');
    var rest := words[1..];
    assert forall i :: 0 <= i < |rest| ==> rest[i] == words[i + 1];
    BreakFromJoin(words[0], rest, measure, maxWidth);
    assert [words[0]] + rest == words;
    JoinSplit(paragraph, ' ');
  }

  /** Every paragraph's lines, paragraph after paragraph. */
  function AllLines(paragraphs: seq<string>, measure: string -> real, maxWidth: real): seq<string>
  {
    if |paragraphs| == 0 then []
    else AllLines(paragraphs[..|paragraphs| - 1], measure, maxWidth) + BreakLines(paragraphs[|paragraphs| - 1], measure, maxWidth)
  }

  /** The strings of the text runs among some draw calls, in order. */
  function Texts(ops: seq<DrawOp>): seq<string>
  {
    if |ops| == 0 then []
    else
      var op := ops[|ops| - 1];
      Texts(ops[..|ops| - 1]) + (if op.Text? then [op.text] else [])
  }

  lemma {:induction false} TextsAppend(a: seq<DrawOp>, b: seq<DrawOp>)
    ensures Texts(a + b) == Texts(a) + Texts(b)
    decreases |b|
  {
    if |b| > 0 {
      TextsAppend(a, b[..|b| - 1]);
      assert (a + b)[..|a + b| - 1] == a + b[..|b| - 1];
    } else {
      assert a + b == a;
    }
  }

  /** The text drawn in a document, page after page. */
  function Lines(pages: seq<Page>): seq<string>
  {
    Texts(Flatten(pages))
  }


  /** A body line: regular Helvetica at 12 points, at the left margin,
      between the bottom margin (plus one font size) and the top of the text. */
  predicate Positioned(op: DrawOp, top: real)
  {
    && op.Text?
    && op.x == Margin && op.size == FontSize && op.font == Helvetica
    && Margin + FontSize <= op.y <= top
  }

  predicate AllPositioned(pages: seq<Page>, top: real)
  {
    forall k, j :: 0 <= k < |pages| && 0 <= j < |pages[k]| ==> Positioned(pages[k][j], top)
  }

  /** b is a text run at least one line height lower than the text run a. */
  predicate LineBelow(a: DrawOp, b: DrawOp)
  {
    a.Text? && b.Text? && b.y <= a.y - LineHeight
  }

  /** On every page each line sits at least a line height below the one drawn
      before it, so the lines of a page run top-down and never overlap. */
  predicate TopDown(pages: seq<Page>)
  {
    forall k, j :: 0 <= k < |pages| && 0 < j < |pages[k]| ==> LineBelow(pages[k][j - 1], pages[k][j])
  }

  /** The cursor is at least a line height below the last line of the current page. */
  predicate CursorBelow(pages: seq<Page>, y: real)
  {
    |pages| > 0 && |pages[|pages| - 1]| > 0 ==>
      var last := pages[|pages| - 1][|pages[|pages| - 1]| - 1];
      last.Text? && y <= last.y - LineHeight
  }

  /** The converter's drawing state: the pages so far and the cursor. */
  datatype Doc = Doc(pages: seq<Page>, y: real)

  /** A body line drawn at height y. */
  function LineOp(line: string, y: real): DrawOp
  {
    Text(line, Margin, y, FontSize, Helvetica)
  }

  /** The page-break check: below `margin + fontSize` a new page starts and
      the cursor returns to the top. */
  function Settle(d: Doc, top: real): (r: Doc)
    requires |d.pages| > 0
    ensures |r.pages| >= |d.pages|
  {
    if d.y < Margin + FontSize then Doc(d.pages + [[]], top) else d
  }

  /** A line the word loop flushes: drawn at the cursor, then the cursor drops
      a line height and the page-break check runs. */
  function Flush(d: Doc, line: string, top: real): (r: Doc)
    requires |d.pages| > 0
    ensures |r.pages| >= |d.pages|
  {
    Settle(Doc(AppendToLast(d.pages, [LineOp(line, d.y)]), d.y - LineHeight), top)
  }

  function FlushAll(d: Doc, lines: seq<string>, top: real): (r: Doc)
    requires |d.pages| > 0
    ensures |r.pages| >= |d.pages|
    decreases |lines|
  {
    if |lines| == 0 then d else Flush(FlushAll(d, lines[..|lines| - 1], top), lines[|lines| - 1], top)
  }

  lemma FlushAllSnoc(d: Doc, lines: seq<string>, line: string, top: real)
    requires |d.pages| > 0
    ensures FlushAll(d, lines + [line], top) == Flush(FlushAll(d, lines, top), line, top)
  {
    assert (lines + [line])[..|lines|] == lines;
  }

  /** The state after one paragraph: the page-break check, the flushed lines,
      then the leftover line, if it is not empty, followed by a drop of 1.2
      line heights; an empty leftover draws nothing and leaves the cursor. */
  function ParagraphDoc(d: Doc, paragraph: string, measure: string -> real, width: real, height: real): (r: Doc)
    requires |d.pages| > 0
    ensures |r.pages| >= |d.pages|
  {
    var b := BreakFrom("", Split(paragraph, ' '), measure, TextWidth(width));
    var flushed := FlushAll(Settle(d, TopOf(height)), b.emitted, TopOf(height));
    if b.last != "" then Doc(AppendToLast(flushed.pages, [LineOp(b.last, flushed.y)]), flushed.y - ParagraphAdvance)
    else flushed
  }

  /** The state after the paragraphs, one after the other. */
  function DocumentDoc(d: Doc, paragraphs: seq<string>, measure: string -> real, width: real, height: real): (r: Doc)
    requires |d.pages| > 0
    ensures |r.pages| >= |d.pages|
    decreases |paragraphs|
  {
    if |paragraphs| == 0 then d
    else ParagraphDoc(DocumentDoc(d, paragraphs[..|paragraphs| - 1], measure, width, height),
                      paragraphs[|paragraphs| - 1], measure, width, height)
  }

  class DocxRenderer {
    const measure: string -> real
    const width: real
    const height: real
    var pages: seq<Page>
    var yPosition: real

    ghost predicate Valid()
      reads this
    {
      && Margin + FontSize <= TopOf(height)
      && |pages| > 0 && yPosition <= TopOf(height)
      && AllPositioned(pages, TopOf(height))
      && TopDown(pages) && CursorBelow(pages, yPosition)
    }

    /** A new document with one page of the given size and the cursor at its top margin. */
    constructor (measure: string -> real, width: real, height: real)
      requires Margin + FontSize <= TopOf(height)
      ensures Valid()
      ensures this.measure == measure && this.width == width && this.height == height
      ensures pages == [[]] && yPosition == TopOf(height)
    {
      this.measure := measure;
      this.width := width;
      this.height := height;
      pages := [[]];
      yPosition := TopOf(height);
    }

    /** The page-break check before a paragraph and after a flushed line. */
    method BreakIfLow()
      requires Valid()
      modifies this
      ensures Valid() && Margin + FontSize <= yPosition
      ensures Doc(pages, yPosition) == Settle(Doc(old(pages), old(yPosition)), TopOf(height))
      ensures Lines(pages) == Lines(old(pages))
    {
      if yPosition < Margin + FontSize {
        FlattenNewPage(pages);
        pages := pages + [[]];
        yPosition := TopOf(height);
      }
    }

    /** One line of text at the cursor; the cursor then drops by `advance`. */
    method DrawLine(line: string, advance: real)
      requires Valid() && Margin + FontSize <= yPosition && advance >= LineHeight
      modifies this
      ensures Valid()
      ensures pages == AppendToLast(old(pages), [LineOp(line, old(yPosition))])
      ensures yPosition == old(yPosition) - advance
      ensures Lines(pages) == Lines(old(pages)) + [line]
    {
      var op := LineOp(line, yPosition);
      FlattenAppend(pages, [op]);
      TextsAppend(Flatten(pages), [op]);
      assert Texts([op]) == [line] by {
        assert [op][..0] == [];
      }
      var after := AppendToLast(pages, [op]);
      forall k, j | 0 <= k < |after| && 0 <= j < |after[k]|
        ensures Positioned(after[k][j], TopOf(height)) && (j > 0 ==> LineBelow(after[k][j - 1], after[k][j]))
      {
        if k < |after| - 1 {
          assert after[k] == after[..|after| - 1][k] == pages[k];
        } else if j < |pages[k]| {
          assert after[k][j] == pages[k][j];
          if j > 0 {
            assert after[k][j - 1] == pages[k][j - 1];
          }
        } else if j > 0 {
          assert after[k][j - 1] == pages[k][j - 1];
        }
      }
      pages := after;
      yPosition := yPosition - advance;
    }

    /** A flushed line: drawn at the cursor, the cursor a line height lower,
        then the page-break check. */
    method FlushLine(line: string)
      requires Valid() && Margin + FontSize <= yPosition
      modifies this
      ensures Valid() && Margin + FontSize <= yPosition
      ensures Doc(pages, yPosition) == Flush(Doc(old(pages), old(yPosition)), line, TopOf(height))
      ensures Lines(pages) == Lines(old(pages)) + [line]
    {
      DrawLine(line, LineHeight);
      ghost var drawn := Doc(pages, yPosition);
      BreakIfLow();
      assert Doc(pages, yPosition) == Settle(drawn, TopOf(height));
    }

    /** One word of the word loop: when the trial line overflows, the
        current line is flushed (drawn, the cursor a line height lower, then
        the page-break check) and the word starts the next line; otherwise
        the word joins the current line. */
    method PlaceWord(currentLine: string, word: string) returns (next: string)
      requires Valid() && Margin + FontSize <= yPosition
      modifies this
      ensures Valid() && Margin + FontSize <= yPosition
      ensures measure(TestLine(currentLine, word)) > TextWidth(width) ==>
                && next == word
                && Doc(pages, yPosition) == Flush(Doc(old(pages), old(yPosition)), currentLine, TopOf(height))
                && Lines(pages) == Lines(old(pages)) + [currentLine]
      ensures measure(TestLine(currentLine, word)) <= TextWidth(width) ==>
                next == TestLine(currentLine, word) && pages == old(pages) && yPosition == old(yPosition)
    {
      var testLine := if currentLine != "" then currentLine + " " + word else word;
      var testWidth := measure(testLine);
      if testWidth > width - Margin * 2.0 {
        FlushLine(currentLine);
        next := word;
      } else {
        next := testLine;
      }
    }

    /** The word loop over one paragraph's words, from an empty current
        line: it flushes exactly the lines `BreakFrom` emits and leaves its
        leftover in the current line. */
    method WordLoop(words: seq<string>) returns (currentLine: string)
      requires Valid() && Margin + FontSize <= yPosition
      modifies this
      ensures Valid() && Margin + FontSize <= yPosition
      ensures currentLine == BreakFrom("", words, measure, TextWidth(width)).last
      ensures Doc(pages, yPosition)
              == FlushAll(Doc(old(pages), old(yPosition)), BreakFrom("", words, measure, TextWidth(width)).emitted, TopOf(height))
      ensures Lines(pages) == Lines(old(pages)) + BreakFrom("", words, measure, TextWidth(width)).emitted
    {
      currentLine := "";
      ghost var drawn: seq<string> := [];
      ghost var whole := BreakFrom("", words, measure, TextWidth(width));
      for i := 0 to |words|
        invariant Valid() && Margin + FontSize <= yPosition
        invariant Lines(pages) == Lines(old(pages)) + drawn
        invariant Doc(pages, yPosition) == FlushAll(Doc(old(pages), old(yPosition)), drawn, TopOf(height))
        invariant whole.emitted == drawn + BreakFrom(currentLine, words[i..], measure, TextWidth(width)).emitted
        invariant whole.last == BreakFrom(currentLine, words[i..], measure, TextWidth(width)).last
      {
        BreakFromStep(currentLine, words, i, measure, TextWidth(width));
        ghost var flushed := currentLine;
        currentLine := PlaceWord(currentLine, words[i]);
        if measure(TestLine(flushed, words[i])) > TextWidth(width) {
          Assoc(Lines(old(pages)), drawn, [flushed]);
          Assoc(drawn, [flushed], BreakFrom(currentLine, words[i + 1..], measure, TextWidth(width)).emitted);
          FlushAllSnoc(Doc(old(pages), old(yPosition)), drawn, flushed, TopOf(height));
          drawn := drawn + [flushed];
        }
      }
      assert words[|words|..] == [];
      assert whole.emitted == drawn;
    }

    /** One paragraph: a page-break check, then the word loop; the leftover
        line, if not empty, is drawn last and the cursor drops by 1.2 line
        heights. */
    method RenderParagraph(paragraph: string)
      requires Valid()
      modifies this
      ensures Valid()
      ensures Doc(pages, yPosition) == ParagraphDoc(Doc(old(pages), old(yPosition)), paragraph, measure, width, height)
      ensures Lines(pages) == Lines(old(pages)) + BreakLines(paragraph, measure, TextWidth(width))
    {
      BreakIfLow();
      ghost var start := Lines(pages);
      var words := Split(paragraph, ' ');
      var currentLine := WordLoop(words);
      ghost var drawn := BreakFrom("", words, measure, TextWidth(width)).emitted;
      if currentLine != "" {
        DrawLine(currentLine, ParagraphAdvance);
        Assoc(start, drawn, [currentLine]);
      }
    }

    /** Every paragraph in order. */
    method RenderParagraphs(paragraphs: seq<string>)
      requires Valid()
      modifies this
      ensures Valid()
      ensures Doc(pages, yPosition) == DocumentDoc(Doc(old(pages), old(yPosition)), paragraphs, measure, width, height)
      ensures Lines(pages) == Lines(old(pages)) + AllLines(paragraphs, measure, TextWidth(width))
    {
      for p := 0 to |paragraphs|
        invariant Valid()
        invariant Doc(pages, yPosition) == DocumentDoc(Doc(old(pages), old(yPosition)), paragraphs[..p], measure, width, height)
        invariant Lines(pages) == Lines(old(pages)) + AllLines(paragraphs[..p], measure, TextWidth(width))
      {
        RenderParagraph(paragraphs[p]);
        assert paragraphs[..p + 1][..p] == paragraphs[..p];
        assert AllLines(paragraphs[..p + 1], measure, TextWidth(width))
            == AllLines(paragraphs[..p], measure, TextWidth(width)) + BreakLines(paragraphs[p], measure, TextWidth(width));
        Assoc(Lines(old(pages)), AllLines(paragraphs[..p], measure, TextWidth(width)), BreakLines(paragraphs[p], measure, TextWidth(width)));
      }
      assert paragraphs[..|paragraphs|] == paragraphs;
    }
  }

  /** The converter end to end on pages `width` by `height` points: the pages
      are exactly those the paragraph loop produces from one empty page; their
      text runs are the broken lines of the non-blank paragraphs in order,
      every one at the left margin inside the vertical margins, and on each
      page every line lies at least a line height below the one before. The
      download name drops the first ".docx" and appends ".pdf". */
  method ConvertDocx(text: string, measure: string -> real, width: real, height: real, fileName: string)
    returns (pages: seq<Page>, downloadName: string)
    requires Margin + FontSize <= TopOf(height)
    ensures pages == DocumentDoc(Doc([[]], TopOf(height)), Paragraphs(text), measure, width, height).pages
    ensures AllPositioned(pages, TopOf(height)) && TopDown(pages)
    ensures Lines(pages) == AllLines(Paragraphs(text), measure, TextWidth(width))
    ensures downloadName == DownloadName(fileName, ".docx")
  {
    var renderer := new DocxRenderer(measure, width, height);
    assert Lines(renderer.pages) == [] by {
      assert Flatten([[]]) == Flatten([]) + [];
    }
    renderer.RenderParagraphs(Paragraphs(text));
    pages := renderer.pages;
    downloadName := DownloadName(fileName, ".docx");
  }
}
