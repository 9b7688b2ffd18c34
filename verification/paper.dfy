/**
 * `make_paper`, `put_sheets_on_paper` and `make_paper_list`: an A4 page
 * (210 x 297, origin at its centre) carrying four bingo sheets and the
 * cut marks between them.
 *
 * Placements are kept as the script writes them: a sheet or a mark is used
 * at an offset, and its own coordinates are relative to that offset.
 */
module Paper {
  import opened Wrappers
  import opened Sampler
  import opened Sheet

  const PaperW: real := 210.0
  const PaperH: real := 297.0
  const PixelScale: nat := 4
  /** Sheets per page. */
  const SheetsPerPage: nat := 4
  /** Oracle values one numbered sheet consumes. */
  const DrawsPerSheet: nat := SheetNumbers

  /**
   * A drawing of `width` x `height` whose origin is its centre, so that it
   * shows `[-width / 2, width / 2] x [-height / 2, height / 2]`.
   */
  datatype Canvas = Canvas(width: real, height: real, pixelScale: nat, background: Element)

  /** A sheet drawn with its top-left corner at `(x, y)`. */
  datatype Placement = Use(sheet: seq<Element>, x: real, y: real)

  /** A straight line from `(x1, y1)` to `(x2, y2)`. */
  datatype Segment = Segment(x1: real, y1: real, x2: real, y2: real)

  /** A cut-mark line drawn at offset `(x, y)`. */
  datatype Mark = UseMark(line: Segment, x: real, y: real)

  /** What a page draws, in drawing order: the canvas and its background, the sheets, the vertical and then the horizontal cut marks. */
  datatype Page = Page(canvas: Canvas, sheets: seq<Placement>, verticalMarks: seq<Mark>, horizontalMarks: seq<Mark>)

  /** `make_paper()`: the A4 canvas at pixel scale 4 with a white rectangle as background. */
  function MakePaper(): (c: Canvas)
    ensures c.width == PaperW && c.height == PaperH && c.pixelScale == PixelScale
    ensures c.background == Rectangle(-(c.width / 2.0), -(c.height / 2.0), c.width, c.height)
  {
    Canvas(PaperW, PaperH, PixelScale, Rectangle(-(PaperW / 2.0), -(PaperH / 2.0), PaperW, PaperH))
  }

  /** Where the four sheets are used, in order. */
  function SheetOffsets(): (r: seq<(real, real)>)
    ensures |r| == SheetsPerPage
  {
    [ (-(PaperW / 2.0 + SheetW), -(PaperH / 2.0 + SheetH)),
      (-(PaperW / 2.0), -(PaperH / 2.0 + SheetH)),
      (-(PaperW / 2.0 + SheetW), -(PaperH / 2.0)),
      (-(PaperW / 2.0), -(PaperH / 2.0)) ]
  }

  /** Where the six vertical cut marks are used: three above and three below the sheets. */
  function VerticalCutMarkPositions(): (r: seq<(real, real)>)
    ensures |r| == 6
  {
    [ (-(PaperW / 2.0 + SheetW) + 1.0, -(PaperH / 2.0 + SheetH) - 1.0),
      (-(PaperW / 2.0), -(PaperH / 2.0 + SheetH) - 1.0),
      (-(PaperW / 2.0) + SheetW - 1.0, -(PaperH / 2.0 + SheetH) - 1.0),
      (-(PaperW / 2.0 + SheetW) + 1.0, -(PaperH / 2.0) + SheetH - 1.0),
      (-(PaperW / 2.0), -(PaperH / 2.0) + SheetH - 1.0),
      (-(PaperW / 2.0) + SheetW - 1.0, -(PaperH / 2.0) + SheetH - 1.0) ]
  }

  /** Where the six horizontal cut marks are used: three left and three right of the sheets. */
  function HorizontalCutMarkPositions(): (r: seq<(real, real)>)
    ensures |r| == 6
  {
    [ (-(PaperW / 2.0 + SheetW) - 1.0, -(PaperH / 2.0 + SheetH) + 1.0),
      (-(PaperW / 2.0) + SheetW - 1.0, -(PaperH / 2.0 + SheetH) + 1.0),
      (-(PaperW / 2.0 + SheetW) - 1.0, -(PaperH / 2.0)),
      (-(PaperW / 2.0) + SheetW - 1.0, -(PaperH / 2.0)),
      (-(PaperW / 2.0 + SheetW) - 1.0, -(PaperH / 2.0) + SheetH - 1.0),
      (-(PaperW / 2.0) + SheetW - 1.0, -(PaperH / 2.0) + SheetH - 1.0) ]
  }

  /** The vertical mark: a line two units long, downwards from its offset. */
  const VerticalCutMark: Segment := Segment(0.0, 0.0, 0.0, 2.0)
  /** The horizontal mark: a line two units long, rightwards from its offset. */
  const HorizontalCutMark: Segment := Segment(0.0, 0.0, 2.0, 0.0)

  /** A mark's line in page coordinates. */
  function Placed(m: Mark): Segment {
    Segment(m.line.x1 + m.x, m.line.y1 + m.y, m.line.x2 + m.x, m.line.y2 + m.y)
  }

  /** The oracle left for sheet `k` of a page once the sheets before it have drawn their numbers. */
  function SheetOracle(oracle: Oracle, k: nat): Oracle {
    Drop(oracle, DrawsPerSheet * k)
  }

  /** The oracle left for page `i` once the pages before it have drawn their sheets. */
  function PageOracle(oracle: Oracle, i: nat): Oracle {
    Drop(oracle, SheetsPerPage * DrawsPerSheet * i)
  }

  /**
   * `put_sheets_on_paper(low_high)`: four sheets made one after another,
   * used at the four offsets, then the vertical and the horizontal cut
   * marks. A range too small for 25 numbers makes the first sheet fail.
   */
  function PutSheetsOnPaper(lowHigh: Option<(int, int)>, oracle: Oracle): (r: Result<Page, SampleError>)
    ensures r.Failure? <==> TooFewNumbers(lowHigh)
  {
    if TooFewNumbers(lowHigh) then
      Failure(SampleLargerThanPopulation)
    else
      Success(AssemblePage(MakeSheets(lowHigh, oracle)))
  }

  /** When the range is too small it is the first sheet that raises, with the sampler's error. */
  lemma FirstSheetFails(lowHigh: Option<(int, int)>, oracle: Oracle)
    requires TooFewNumbers(lowHigh)
    ensures MakeBingoSheet(lowHigh, SheetOracle(oracle, 0)) == Failure(SampleLargerThanPopulation)
  {
  }

  /** A page `put_sheets_on_paper` returns is laid out as `IsPage` describes. */
  lemma PageLayout(lowHigh: Option<(int, int)>, oracle: Oracle)
    ensures var r := PutSheetsOnPaper(lowHigh, oracle);
      r.Success? ==> IsPage(r.value, lowHigh, oracle)
  {
    if !TooFewNumbers(lowHigh) {
      AssembledIsPage(MakeSheets(lowHigh, oracle), lowHigh, oracle);
    }
  }

  /** The four sheets of a page, sheet `k` made from the oracle left for it. */
  function MakeSheets(lowHigh: Option<(int, int)>, oracle: Oracle): (r: seq<seq<Element>>)
    requires !TooFewNumbers(lowHigh)
    ensures |r| == SheetsPerPage
    ensures forall k :: 0 <= k < SheetsPerPage ==>
              MakeBingoSheet(lowHigh, SheetOracle(oracle, k)).Success? && r[k] == MakeBingoSheet(lowHigh, SheetOracle(oracle, k)).value
  {
    seq(SheetsPerPage, k requires 0 <= k < SheetsPerPage => MakeBingoSheet(lowHigh, SheetOracle(oracle, k)).value)
  }

  /**
   * The four sheets are made one after another from consecutive random
   * choices: sheet `k` reads values `25 * k` to `25 * k + 24` and no others.
   */
  lemma SheetsInSequence(lowHigh: Option<(int, int)>, oracle: Oracle)
    requires !TooFewNumbers(lowHigh) && |oracle| >= SheetsPerPage * DrawsPerSheet
    ensures forall k :: 0 <= k < SheetsPerPage ==>
              MakeSheets(lowHigh, oracle)[k] == MakeBingoSheet(lowHigh, oracle[DrawsPerSheet * k..DrawsPerSheet * (k + 1)]).value
  {
    forall k | 0 <= k < SheetsPerPage
      ensures MakeSheets(lowHigh, oracle)[k] == MakeBingoSheet(lowHigh, oracle[DrawsPerSheet * k..DrawsPerSheet * (k + 1)]).value
    {
      SheetReadsItsSlice(lowHigh, oracle, k);
    }
  }

  lemma SheetReadsItsSlice(lowHigh: Option<(int, int)>, oracle: Oracle, k: nat)
    requires DrawsPerSheet * (k + 1) <= |oracle|
    ensures MakeBingoSheet(lowHigh, SheetOracle(oracle, k)) == MakeBingoSheet(lowHigh, oracle[DrawsPerSheet * k..DrawsPerSheet * (k + 1)])
  {
    var rest := SheetOracle(oracle, k);
    BingoSheetReadsPrefix(lowHigh, rest);
    assert rest[..DrawsPerSheet] == oracle[DrawsPerSheet * k..DrawsPerSheet * (k + 1)];
  }

  /** A page reads the oracle's first 100 values, 25 per sheet, and nothing after them. */
  lemma PageReadsPrefix(lowHigh: Option<(int, int)>, oracle: Oracle)
    requires |oracle| >= SheetsPerPage * DrawsPerSheet
    ensures PutSheetsOnPaper(lowHigh, oracle) == PutSheetsOnPaper(lowHigh, oracle[..SheetsPerPage * DrawsPerSheet])
  {
    var prefix := oracle[..SheetsPerPage * DrawsPerSheet];
    if !TooFewNumbers(lowHigh) {
      forall k | 0 <= k < SheetsPerPage
        ensures MakeBingoSheet(lowHigh, SheetOracle(oracle, k)) == MakeBingoSheet(lowHigh, SheetOracle(prefix, k))
      {
        SheetInPrefix(lowHigh, oracle, k);
      }
      SameSheets(lowHigh, oracle, prefix);
    }
  }

  /** Sheet `k` of a page reads the same values from the oracle as from its first 100 values. */
  lemma SheetInPrefix(lowHigh: Option<(int, int)>, oracle: Oracle, k: nat)
    requires |oracle| >= SheetsPerPage * DrawsPerSheet && k < SheetsPerPage
    ensures MakeBingoSheet(lowHigh, SheetOracle(oracle, k)) == MakeBingoSheet(lowHigh, SheetOracle(oracle[..SheetsPerPage * DrawsPerSheet], k))
  {
    var prefix := oracle[..SheetsPerPage * DrawsPerSheet];
    SheetReadsItsSlice(lowHigh, oracle, k);
    SheetReadsItsSlice(lowHigh, prefix, k);
    assert prefix[DrawsPerSheet * k..DrawsPerSheet * (k + 1)] == oracle[DrawsPerSheet * k..DrawsPerSheet * (k + 1)];
  }

  /** Two oracles that give the same four sheets give the same page. */
  lemma SameSheets(lowHigh: Option<(int, int)>, oracle: Oracle, oracle': Oracle)
    requires !TooFewNumbers(lowHigh)
    requires forall k :: 0 <= k < SheetsPerPage ==>
               MakeBingoSheet(lowHigh, SheetOracle(oracle, k)) == MakeBingoSheet(lowHigh, SheetOracle(oracle', k))
    ensures PutSheetsOnPaper(lowHigh, oracle) == PutSheetsOnPaper(lowHigh, oracle')
  {
    var sheets, sheets' := MakeSheets(lowHigh, oracle), MakeSheets(lowHigh, oracle');
    assert forall k :: 0 <= k < SheetsPerPage ==> sheets[k] == sheets'[k];
    assert sheets == sheets';
  }

  /** The page holding the given four sheets at their offsets, followed by the cut marks. */
  function AssemblePage(sheets: seq<seq<Element>>): Page
    requires |sheets| == SheetsPerPage
  {
    var offsets := SheetOffsets();
    Page(
      MakePaper(),
      seq(SheetsPerPage, k requires 0 <= k < SheetsPerPage => Use(sheets[k], offsets[k].0, offsets[k].1)),
      MarksAt(VerticalCutMark, VerticalCutMarkPositions()),
      MarksAt(HorizontalCutMark, HorizontalCutMarkPositions()))
  }

  /** The mark `line` used once at each of `positions`, in order. */
  function MarksAt(line: Segment, positions: seq<(real, real)>): (marks: seq<Mark>)
    ensures |marks| == |positions|
  {
    seq(|positions|, i requires 0 <= i < |positions| => UseMark(line, positions[i].0, positions[i].1))
  }

  lemma AssembledIsPage(sheets: seq<seq<Element>>, lowHigh: Option<(int, int)>, oracle: Oracle)
    requires |sheets| == SheetsPerPage
    requires forall k :: 0 <= k < SheetsPerPage ==>
               && MakeBingoSheet(lowHigh, SheetOracle(oracle, k)).Success?
               && sheets[k] == MakeBingoSheet(lowHigh, SheetOracle(oracle, k)).value
    ensures IsPage(AssemblePage(sheets), lowHigh, oracle)
  {
  }

  /**
   * A page as `put_sheets_on_paper` builds it: the A4 canvas; sheet `k`
   * made from the oracle left for it and used at offset `k`; six vertical
   * and six horizontal marks at their positions.
   */
  ghost predicate IsPage(p: Page, lowHigh: Option<(int, int)>, oracle: Oracle) {
    && p.canvas == MakePaper()
    && |p.sheets| == SheetsPerPage
    && (forall k :: 0 <= k < SheetsPerPage ==>
          && MakeBingoSheet(lowHigh, SheetOracle(oracle, k)).Success?
          && p.sheets[k].sheet == MakeBingoSheet(lowHigh, SheetOracle(oracle, k)).value
          && (p.sheets[k].x, p.sheets[k].y) == SheetOffsets()[k])
    && |p.verticalMarks| == 6 && |p.horizontalMarks| == 6
    && (forall i :: 0 <= i < 6 ==>
          p.verticalMarks[i] == UseMark(VerticalCutMark, VerticalCutMarkPositions()[i].0, VerticalCutMarkPositions()[i].1))
    && (forall i :: 0 <= i < 6 ==>
          p.horizontalMarks[i] == UseMark(HorizontalCutMark, HorizontalCutMarkPositions()[i].0, HorizontalCutMarkPositions()[i].1))
  }

  /**
   * The four sheets tile a 2 x 2 block without gaps: sheet 2 right of
   * sheet 1, sheet 3 below it, sheet 4 diagonally. The block spans
   * `[-193, -17] x [-280.5, -16.5]`.
   */
  lemma SheetsTile(p: Page, lowHigh: Option<(int, int)>, oracle: Oracle)
    requires IsPage(p, lowHigh, oracle)
    ensures p.sheets[0].x == BlockLeft && p.sheets[0].y == BlockTop
    ensures p.sheets[1].x == p.sheets[0].x + SheetW && p.sheets[1].y == p.sheets[0].y
    ensures p.sheets[2].x == p.sheets[0].x && p.sheets[2].y == p.sheets[0].y + SheetH
    ensures p.sheets[3].x == p.sheets[0].x + SheetW && p.sheets[3].y == p.sheets[0].y + SheetH
    ensures p.sheets[3].x + SheetW == BlockRight && p.sheets[3].y + SheetH == BlockBottom
  {
    assert (p.sheets[0].x, p.sheets[0].y) == SheetOffsets()[0];
    assert (p.sheets[1].x, p.sheets[1].y) == SheetOffsets()[1];
    assert (p.sheets[2].x, p.sheets[2].y) == SheetOffsets()[2];
    assert (p.sheets[3].x, p.sheets[3].y) == SheetOffsets()[3];
  }

  /** Edges of the block the four sheets tile. */
  const BlockLeft: real := -193.0
  const BlockRight: real := -17.0
  const BlockTop: real := -280.5
  const BlockBottom: real := -16.5
  /** The seams between the sheets. */
  const SeamX: real := -105.0
  const SeamY: real := -148.5

  /**
   * The block of sheets is centred on the point `(-105, -148.5)`, the
   * background's top-left corner, not on the page centre: only the fourth
   * sheet lies on the background, the first lies wholly off it.
   */
  lemma BlockAgainstBackground()
    ensures (BlockLeft + BlockRight) / 2.0 == SeamX == MakePaper().background.x
    ensures (BlockTop + BlockBottom) / 2.0 == SeamY == MakePaper().background.y
    ensures var b := MakePaper().background;
      && b.x <= SheetOffsets()[3].0 && SheetOffsets()[3].0 + SheetW <= b.x + b.width
      && b.y <= SheetOffsets()[3].1 && SheetOffsets()[3].1 + SheetH <= b.y + b.height
    ensures var b := MakePaper().background;
      SheetOffsets()[0].0 + SheetW <= b.x && SheetOffsets()[0].1 + SheetH <= b.y
    ensures var b := MakePaper().background;
      SheetOffsets()[1].1 + SheetH == b.y && SheetOffsets()[2].0 + SheetW == b.x
  {
  }

  /**
   * Each vertical mark is a two-unit vertical line at one of the block's
   * three vertical cut lines (one unit inside each outer edge, and the
   * seam), spanning one unit either side of the block's top or bottom edge.
   */
  lemma VerticalMarksCrossEdges(p: Page, lowHigh: Option<(int, int)>, oracle: Oracle)
    requires IsPage(p, lowHigh, oracle)
    ensures forall i :: 0 <= i < 6 ==>
              var s := Placed(p.verticalMarks[i]);
              && s.x1 == s.x2 && s.y2 == s.y1 + 2.0
              && (s.x1 == BlockLeft + 1.0 || s.x1 == SeamX || s.x1 == BlockRight - 1.0)
              && (s.y1 == BlockTop - 1.0 || s.y1 == BlockBottom - 1.0)
  {
    forall i | 0 <= i < 6
      ensures var s := Placed(p.verticalMarks[i]);
              && s.x1 == s.x2 && s.y2 == s.y1 + 2.0
              && (s.x1 == BlockLeft + 1.0 || s.x1 == SeamX || s.x1 == BlockRight - 1.0)
              && (s.y1 == BlockTop - 1.0 || s.y1 == BlockBottom - 1.0)
    {
      assert p.verticalMarks[i] == UseMark(VerticalCutMark, VerticalCutMarkPositions()[i].0, VerticalCutMarkPositions()[i].1);
    }
  }

  /**
   * Each horizontal mark is a two-unit horizontal line at one of the
   * block's three horizontal cut lines, spanning one unit either side of
   * the block's left or right edge.
   */
  lemma HorizontalMarksCrossEdges(p: Page, lowHigh: Option<(int, int)>, oracle: Oracle)
    requires IsPage(p, lowHigh, oracle)
    ensures forall i :: 0 <= i < 6 ==>
              var s := Placed(p.horizontalMarks[i]);
              && s.y1 == s.y2 && s.x2 == s.x1 + 2.0
              && (s.y1 == BlockTop + 1.0 || s.y1 == SeamY || s.y1 == BlockBottom - 1.0)
              && (s.x1 == BlockLeft - 1.0 || s.x1 == BlockRight - 1.0)
  {
    forall i | 0 <= i < 6
      ensures var s := Placed(p.horizontalMarks[i]);
              && s.y1 == s.y2 && s.x2 == s.x1 + 2.0
              && (s.y1 == BlockTop + 1.0 || s.y1 == SeamY || s.y1 == BlockBottom - 1.0)
              && (s.x1 == BlockLeft - 1.0 || s.x1 == BlockRight - 1.0)
    {
      assert p.horizontalMarks[i] == UseMark(HorizontalCutMark, HorizontalCutMarkPositions()[i].0, HorizontalCutMarkPositions()[i].1);
    }
  }

  /** Without a range the four sheets of a page are the same blank sheet. */
  lemma BlankPageRepeatsOneSheet(oracle: Oracle)
    ensures PutSheetsOnPaper(None, oracle).Success?
    ensures var p := PutSheetsOnPaper(None, oracle).value;
      forall k :: 0 <= k < SheetsPerPage ==> p.sheets[k].sheet == p.sheets[0].sheet && IsBlankSheet(p.sheets[k].sheet)
  {
    PageLayout(None, oracle);
    var p := PutSheetsOnPaper(None, oracle).value;
    forall k | 0 <= k < SheetsPerPage
      ensures p.sheets[k].sheet == p.sheets[0].sheet && IsBlankSheet(p.sheets[k].sheet)
    {
      BingoSheetLayout(None, SheetOracle(oracle, k));
      BingoSheetLayout(None, SheetOracle(oracle, 0));
      BlankSheetUnique(p.sheets[k].sheet, p.sheets[0].sheet);
    }
  }

  /** A blank sheet is fully determined. */
  lemma BlankSheetUnique(a: seq<Element>, b: seq<Element>)
    requires IsBlankSheet(a) && IsBlankSheet(b)
    ensures a == b
  {
    forall i | 2 <= i < |a|
      ensures a[i] == b[i]
    {
      assert a[2 + (i - 2)] == CellRect(Grid()[i - 2]) == b[2 + (i - 2)];
    }
  }

  /**
   * `make_paper_list(count, low_high)`: `[put_sheets_on_paper(low_high) for i
   * in range(count)]`, page `i` drawing from the oracle left for it. There
   * are no pages when `count` is zero or negative; otherwise the first page
   * raises when the range is too small.
   */
  function MakePaperList(count: int, lowHigh: Option<(int, int)>, oracle: Oracle): (r: Result<seq<Page>, SampleError>)
    ensures r.Failure? <==> count > 0 && TooFewNumbers(lowHigh)
    ensures r.Success? ==> |r.value| == PageCount(count)
    ensures r.Success? ==> forall i :: 0 <= i < |r.value| ==> Success(r.value[i]) == PutSheetsOnPaper(lowHigh, PageOracle(oracle, i))
  {
    var n := PageCount(count);
    if n > 0 && TooFewNumbers(lowHigh) then Failure(SampleLargerThanPopulation) else Success(MakePages(n, lowHigh, oracle))
  }

  /** How many pages `range(count)` yields: none when `count` is zero or negative. */
  function PageCount(count: int): nat {
    if count > 0 then count else 0
  }

  /** The first `n` pages of a list whose pages are made without error. */
  function MakePages(n: nat, lowHigh: Option<(int, int)>, oracle: Oracle): (r: seq<Page>)
    requires n == 0 || !TooFewNumbers(lowHigh)
    ensures |r| == n
    ensures forall i :: 0 <= i < n ==> Success(r[i]) == PutSheetsOnPaper(lowHigh, PageOracle(oracle, i))
  {
    if n == 0 then
      []
    else
      var prev := MakePages(n - 1, lowHigh, oracle);
      var page := PutSheetsOnPaper(lowHigh, PageOracle(oracle, n - 1)).value;
      assert forall i :: 0 <= i < n - 1 ==> (prev + [page])[i] == prev[i];
      prev + [page]
  }

  lemma MakePagesStep(i: nat, lowHigh: Option<(int, int)>, oracle: Oracle)
    requires !TooFewNumbers(lowHigh)
    ensures MakePages(i + 1, lowHigh, oracle) == MakePages(i, lowHigh, oracle) + [PutSheetsOnPaper(lowHigh, PageOracle(oracle, i)).value]
  {
  }

  /**
   * The pages are made one after another from consecutive random choices:
   * page `i` reads values `100 * i` to `100 * i + 99` and no others.
   */
  lemma PagesInSequence(lowHigh: Option<(int, int)>, oracle: Oracle, i: nat)
    requires SheetsPerPage * DrawsPerSheet * (i + 1) <= |oracle|
    ensures PutSheetsOnPaper(lowHigh, PageOracle(oracle, i))
         == PutSheetsOnPaper(lowHigh, oracle[SheetsPerPage * DrawsPerSheet * i..SheetsPerPage * DrawsPerSheet * (i + 1)])
  {
    var rest := PageOracle(oracle, i);
    PageReadsPrefix(lowHigh, rest);
    assert rest[..SheetsPerPage * DrawsPerSheet] == oracle[SheetsPerPage * DrawsPerSheet * i..SheetsPerPage * DrawsPerSheet * (i + 1)];
  }

  /** Every page of the list is a page as `put_sheets_on_paper` builds it from the oracle left for it. */
  lemma PaperListPages(count: int, lowHigh: Option<(int, int)>, oracle: Oracle)
    requires MakePaperList(count, lowHigh, oracle).Success?
    ensures var pages := MakePaperList(count, lowHigh, oracle).value;
      forall i :: 0 <= i < |pages| ==> IsPage(pages[i], lowHigh, PageOracle(oracle, i))
  {
    var pages := MakePaperList(count, lowHigh, oracle).value;
    forall i | 0 <= i < |pages|
      ensures IsPage(pages[i], lowHigh, PageOracle(oracle, i))
    {
      PageLayout(lowHigh, PageOracle(oracle, i));
      assert Success(pages[i]) == PutSheetsOnPaper(lowHigh, PageOracle(oracle, i));
    }
  }
}
