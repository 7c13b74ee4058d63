/** The part of the PDF writer the converters touch: a document is a sequence of
    pages and each page the sequence of draw calls made on it, in order. Colours
    and line thickness are fixed per call site and are not recorded. */
module Pdf {
  import T = Text

  datatype Font = Helvetica | HelveticaBold

  datatype DrawOp =
    | Text(text: string, x: real, y: real, size: real, font: Font)     // page.drawText
    | Line(x1: real, y1: real, x2: real, y2: real)                      // page.drawLine
    | Fill(x: real, y: real, width: real, height: real)                 // page.drawRectangle with a fill colour
    | Frame(x: real, y: real, width: real, height: real)                // page.drawRectangle with a border only

  type Page = seq<DrawOp>

  /** Drawing on the current page: ops are appended to the last page. */
  function AppendToLast(pages: seq<Page>, ops: seq<DrawOp>): (r: seq<Page>)
    requires |pages| > 0
    ensures |r| == |pages|
    ensures r[..|r| - 1] == pages[..|pages| - 1]
    ensures r[|r| - 1] == pages[|pages| - 1] + ops
  {
    pages[..|pages| - 1] + [pages[|pages| - 1] + ops]
  }

  lemma AppendTwice(pages: seq<Page>, a: seq<DrawOp>, b: seq<DrawOp>)
    requires |pages| > 0
    ensures AppendToLast(AppendToLast(pages, a), b) == AppendToLast(pages, a + b)
  {
    var l := pages[|pages| - 1];
    assert (l + a) + b == l + (a + b);
  }

  /** Three draw calls in a row on the last page add their ops in that order. */
  lemma AppendThree(pages: seq<Page>, a: seq<DrawOp>, b: seq<DrawOp>, c: seq<DrawOp>)
    requires |pages| > 0
    ensures AppendToLast(AppendToLast(AppendToLast(pages, a), b), c) == AppendToLast(pages, a + b + c)
  {
    AppendTwice(pages, a, b);
    AppendTwice(pages, a + b, c);
  }

  lemma AppendNothing(pages: seq<Page>)
    requires |pages| > 0
    ensures AppendToLast(pages, []) == pages
  {
    assert pages[|pages| - 1] + [] == pages[|pages| - 1];
  }

  /** Drawing on a page just added. */
  lemma AppendToFresh(pages: seq<Page>, ops: seq<DrawOp>)
    ensures AppendToLast(pages + [[]], ops) == pages + [ops]
  {
    assert (pages + [[]])[..|pages|] == pages;
    assert [] + ops == ops;
  }

  /** What is drawn on the current page sits there as one block, after what was there before. */
  lemma AppendedBlock(pages: seq<Page>, ops: seq<DrawOp>)
    requires |pages| > 0
    ensures Extends(pages, AppendToLast(pages, ops))
    ensures BlockAt(AppendToLast(pages, ops), |pages| - 1, |pages[|pages| - 1]|, ops)
  {
    ExtendsByAppend(pages, ops);
    var l := pages[|pages| - 1];
    assert (l + ops)[|l|..|l| + |ops|] == ops;
  }

  /** Every draw call of the document, page after page. */
  function Flatten(pages: seq<Page>): seq<DrawOp>
  {
    if |pages| == 0 then [] else Flatten(pages[..|pages| - 1]) + pages[|pages| - 1]
  }

  lemma FlattenAppend(pages: seq<Page>, ops: seq<DrawOp>)
    requires |pages| > 0
    ensures Flatten(AppendToLast(pages, ops)) == Flatten(pages) + ops
  {
    var r := AppendToLast(pages, ops);
    var n := |pages| - 1;
    var before := Flatten(pages[..n]);
    calc {
      Flatten(r);
      Flatten(r[..n]) + r[n];
      { assert r[..n] == pages[..n]; }
      before + (pages[n] + ops);
      { T.Assoc(before, pages[n], ops); }
      (before + pages[n]) + ops;
      Flatten(pages) + ops;
    }
  }

  lemma FlattenNewPage(pages: seq<Page>)
    ensures Flatten(pages + [[]]) == Flatten(pages)
  {
    assert (pages + [[]])[..|pages|] == pages;
  }

  /** `after` is `before` with draw calls added to its last page and possibly
      further pages: nothing already drawn is changed or removed. */
  ghost predicate Extends(before: seq<Page>, after: seq<Page>)
  {
    && 0 < |before| <= |after|
    && (forall i :: 0 <= i < |before| - 1 ==> after[i] == before[i])
    && before[|before| - 1] <= after[|before| - 1]
  }

  lemma ExtendsTransitive(a: seq<Page>, b: seq<Page>, c: seq<Page>)
    requires Extends(a, b) && Extends(b, c)
    ensures Extends(a, c)
  {
    var k := |a| - 1;
    if k < |b| - 1 {
      assert c[k] == b[k];
    }
  }

  lemma ExtendsByAppend(pages: seq<Page>, ops: seq<DrawOp>)
    requires |pages| > 0
    ensures Extends(pages, AppendToLast(pages, ops))
  {
    var r := AppendToLast(pages, ops);
    forall i | 0 <= i < |pages| - 1 ensures r[i] == pages[i] {
      assert r[i] == r[..|r| - 1][i];
    }
  }

  lemma ExtendsByNewPage(pages: seq<Page>)
    requires |pages| > 0
    ensures Extends(pages, pages + [[]])
  {
  }

  /** A block of draw calls that sits contiguously on one page. */
  ghost predicate BlockAt(pages: seq<Page>, page: nat, offset: nat, ops: seq<DrawOp>)
  {
    page < |pages| && offset + |ops| <= |pages[page]| && pages[page][offset..offset + |ops|] == ops
  }

  lemma {:induction false} BlockKept(before: seq<Page>, after: seq<Page>, page: nat, offset: nat, ops: seq<DrawOp>)
    requires Extends(before, after) && BlockAt(before, page, offset, ops)
    ensures BlockAt(after, page, offset, ops)
  {
    if page == |before| - 1 {
      assert after[page][..|before[page]|] == before[page];
      assert after[page][offset..offset + |ops|] == before[page][offset..offset + |ops|];
    } else {
      assert after[page] == before[page];
    }
  }
}
