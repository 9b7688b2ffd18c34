/**
 * `make_bingo_sheet`: one 88 x 132 sheet as the ordered list of elements it
 * draws, in sheet coordinates. Styling (fill colours, font family, stroke
 * and letter spacing) is not part of the model; font size and centring are
 * kept because they tell the three kinds of text apart.
 */
module Sheet {
  import opened Wrappers
  import opened SeqUtil
  import opened Decimal
  import opened Ranges
  import opened Sampler

  const SheetW: real := 88.0
  const SheetH: real := 132.0
  /** Cells are 16 x 16 squares. */
  const CellSize: int := 16
  const CellCount: nat := 25

  datatype Element =
    | Rectangle(x: real, y: real, width: real, height: real)
    | Text(text: string, x: real, y: real, fontSize: nat, centered: bool)

  /** Cell `i` has its corner in column `i / 5` and row `i % 5` of the 16-unit grid from (4, 48). */
  function Grid(): (g: seq<(int, int)>)
    ensures |g| == CellCount
  {
    seq(CellCount, i requires 0 <= i < CellCount => (4 + 16 * (i / 5), 48 + 16 * (i % 5)))
  }

  /**
   * The grid is the script's comprehension
   * `[(sx, sy) for sx in range(4, 69, 16) for sy in range(48, 113, 16)]`:
   * five columns from x = 4 and five rows from y = 48, listed column by column.
   */
  lemma GridIsCrossProduct()
    ensures Grid() == Cross(Range(4, 69, 16), Range(48, 113, 16))
  {
    var xs := Range(4, 69, 16);
    var ys := Range(48, 113, 16);
    FiveSteps(4, 69, xs);
    FiveSteps(48, 113, ys);
    var g := Cross(xs, ys);
    GridIndex(xs, ys, g);
    SameCells(Grid(), g);
  }

  lemma SameCells(g: seq<(int, int)>, h: seq<(int, int)>)
    requires |g| == |h| == CellCount
    requires forall i :: 0 <= i < CellCount ==> g[i] == (4 + 16 * (i / 5), 48 + 16 * (i % 5))
    requires forall i :: 0 <= i < CellCount ==> h[i] == (4 + 16 * (i / 5), 48 + 16 * (i % 5))
    ensures g == h
  {
    assert forall i :: 0 <= i < CellCount ==> g[i] == h[i];
  }

  /** A range that stops within one step after its fifth term has exactly five terms. */
  lemma FiveSteps(start: int, stop: int, r: seq<int>)
    requires start + 64 < stop <= start + 80
    requires r == Range(start, stop, 16)
    ensures |r| == 5
    ensures forall a :: 0 <= a < 5 ==> r[a] == start + 16 * a
  {
    RangeTerm(start, stop, 16, 5);
  }

  lemma GridIndex(xs: seq<int>, ys: seq<int>, g: seq<(int, int)>)
    requires |xs| == 5 && |ys| == 5
    requires forall a :: 0 <= a < 5 ==> xs[a] == 4 + 16 * a
    requires forall b :: 0 <= b < 5 ==> ys[b] == 48 + 16 * b
    requires IsProduct(xs, ys, g)
    ensures |g| == CellCount
    ensures forall i :: 0 <= i < CellCount ==> g[i] == (4 + 16 * (i / 5), 48 + 16 * (i % 5))
  {
    BlockStartIsProduct(5, 5);
    forall i | 0 <= i < CellCount
      ensures g[i] == (4 + 16 * (i / 5), 48 + 16 * (i % 5))
    {
      var a, b := i / 5, i % 5;
      BlockStartIsProduct(a, 5);
      assert ProductEntry(xs, ys, g, a, b);
    }
  }

  /** The sheet-sized background rectangle. */
  function Background(): Element {
    Rectangle(0.0, 0.0, SheetW, SheetH)
  }

  /** "Bingo!", centred across the sheet, halfway down to the first row plus 6. */
  function Title(): Element {
    Text("Bingo!", SheetW / 2.0, (Grid()[0].1 as real) / 2.0 + 6.0, 24, true)
  }

  /** The bordered square of one cell. */
  function CellRect(p: (int, int)): Element {
    Rectangle(p.0 as real, p.1 as real, CellSize as real, CellSize as real)
  }

  /** A cell's number, centred 8 across and 12 down from the cell's corner. */
  function NumberLabel(n: int, p: (int, int)): Element {
    Text(IntToString(n), p.0 as real + 8.0, p.1 as real + 12.0, 10, true)
  }

  /** The footer "For the numbers {low} to {high}.", just above the first cell. */
  function Caption(lowHigh: (int, int)): Element {
    Text("For the numbers " + IntToString(lowHigh.0) + " to " + IntToString(lowHigh.1) + ".",
         Grid()[0].0 as real, Grid()[0].1 as real - 4.0, 4, false)
  }

  /** `numbers` is either empty (no range) or one number per cell drawn for the range. */
  predicate NumbersFit(lowHigh: Option<(int, int)>, numbers: seq<int>) {
    numbers == [] || (|numbers| == CellCount && lowHigh.Some?)
  }

  /** The cell squares in grid order. */
  function CellRects(): (r: seq<Element>)
    ensures |r| == CellCount
  {
    seq(CellCount, i requires 0 <= i < CellCount => CellRect(Grid()[i]))
  }

  /** The number labels in grid order, `numbers[i]` on cell `i`. */
  function NumberLabels(numbers: seq<int>): (r: seq<Element>)
    requires |numbers| == CellCount
    ensures |r| == CellCount
  {
    seq(CellCount, i requires 0 <= i < CellCount => NumberLabel(numbers[i], Grid()[i]))
  }

  /** What one turn of the cell loop appends: the cell, then (with numbers) its label and the caption. */
  function CellGroup(lowHigh: Option<(int, int)>, numbers: seq<int>, i: nat): seq<Element>
    requires i < CellCount && NumbersFit(lowHigh, numbers)
  {
    if numbers == [] then [CellRects()[i]]
    else [CellRects()[i], NumberLabels(numbers)[i], Caption(lowHigh.value)]
  }

  /**
   * `r` lists the first `n` cells in grid order: one rectangle each on a
   * blank sheet; rectangle, number label and caption each on a numbered one.
   */
  ghost predicate ListsCells(lowHigh: Option<(int, int)>, numbers: seq<int>, n: nat, r: seq<Element>)
    requires n <= CellCount && NumbersFit(lowHigh, numbers)
  {
    if numbers == [] then
      && |r| == n
      && forall i :: 0 <= i < n ==> r[i] == CellRects()[i]
    else
      && |r| == 3 * n
      && forall i :: 0 <= i < n ==>
           && r[3 * i] == CellRects()[i]
           && r[3 * i + 1] == NumberLabels(numbers)[i]
           && r[3 * i + 2] == Caption(lowHigh.value)
  }

  /** The first `n` turns of the cell loop. */
  function CellElements(lowHigh: Option<(int, int)>, numbers: seq<int>, n: nat): (r: seq<Element>)
    requires n <= CellCount && NumbersFit(lowHigh, numbers)
    ensures ListsCells(lowHigh, numbers, n, r)
  {
    if n == 0 then
      []
    else
      var prev := CellElements(lowHigh, numbers, n - 1);
      CellStep(lowHigh, numbers, n, prev);
      prev + CellGroup(lowHigh, numbers, n - 1)
  }

  lemma CellStep(lowHigh: Option<(int, int)>, numbers: seq<int>, n: nat, prev: seq<Element>)
    requires 0 < n <= CellCount && NumbersFit(lowHigh, numbers)
    requires ListsCells(lowHigh, numbers, n - 1, prev)
    ensures ListsCells(lowHigh, numbers, n, prev + CellGroup(lowHigh, numbers, n - 1))
  {
    if numbers == [] {
      BlankCellStep(lowHigh, n, prev);
    } else {
      NumberedCellStep(lowHigh.value, numbers, n, prev);
    }
  }

  lemma BlankCellStep(lowHigh: Option<(int, int)>, n: nat, prev: seq<Element>)
    requires 0 < n <= CellCount
    requires ListsCells(lowHigh, [], n - 1, prev)
    ensures ListsCells(lowHigh, [], n, prev + CellGroup(lowHigh, [], n - 1))
  {
    SinglesExtend(prev, CellRects(), n - 1);
  }

  lemma NumberedCellStep(lh: (int, int), numbers: seq<int>, n: nat, prev: seq<Element>)
    requires 0 < n <= CellCount && |numbers| == CellCount
    requires ListsCells(Some(lh), numbers, n - 1, prev)
    ensures ListsCells(Some(lh), numbers, n, prev + CellGroup(Some(lh), numbers, n - 1))
  {
    assert CellGroup(Some(lh), numbers, n - 1) == [CellRects()[n - 1], NumberLabels(numbers)[n - 1], Caption(lh)];
    TriplesExtend(prev, CellRects(), NumberLabels(numbers), Caption(lh), n - 1);
  }

  /** Appending the next entry of `xs` to a prefix of `xs`. */
  lemma SinglesExtend<T>(prev: seq<T>, xs: seq<T>, i: nat)
    requires i < |xs| && |prev| == i
    requires forall m :: 0 <= m < i ==> prev[m] == xs[m]
    ensures |prev + [xs[i]]| == i + 1
    ensures forall m :: 0 <= m <= i ==> (prev + [xs[i]])[m] == xs[m]
  {
  }

  /** Appending the next triple to a list of triples `xs[m], ys[m], z`. */
  lemma TriplesExtend<T>(prev: seq<T>, xs: seq<T>, ys: seq<T>, z: T, i: nat)
    requires i < |xs| && i < |ys|
    requires |prev| == 3 * i
    requires forall m :: 0 <= m < i ==> prev[3 * m] == xs[m] && prev[3 * m + 1] == ys[m] && prev[3 * m + 2] == z
    ensures |prev + [xs[i], ys[i], z]| == 3 * (i + 1)
    ensures forall m :: 0 <= m <= i ==>
              && (prev + [xs[i], ys[i], z])[3 * m] == xs[m]
              && (prev + [xs[i], ys[i], z])[3 * m + 1] == ys[m]
              && (prev + [xs[i], ys[i], z])[3 * m + 2] == z
  {
  }

  /** The element list of a sheet whose numbers are already drawn. */
  function SheetLayout(lowHigh: Option<(int, int)>, numbers: seq<int>): seq<Element>
    requires NumbersFit(lowHigh, numbers)
  {
    [Background(), Title()] + CellElements(lowHigh, numbers, CellCount)
  }

  /** A blank sheet: background, title, and the 25 empty cells in grid order. */
  ghost predicate IsBlankSheet(els: seq<Element>) {
    && |els| == 2 + CellCount
    && els[0] == Background() && els[1] == Title()
    && forall i :: 0 <= i < CellCount ==> els[2 + i] == CellRect(Grid()[i])
  }

  /** A numbered sheet: after background and title, each cell followed by its number and the caption. */
  ghost predicate IsNumberedSheet(els: seq<Element>, lowHigh: (int, int), numbers: seq<int>) {
    && |numbers| == CellCount
    && |els| == 2 + 3 * CellCount
    && els[0] == Background() && els[1] == Title()
    && forall i :: 0 <= i < CellCount ==>
         && els[2 + 3 * i] == CellRect(Grid()[i])
         && els[3 + 3 * i] == NumberLabel(numbers[i], Grid()[i])
         && els[4 + 3 * i] == Caption(lowHigh)
  }

  /** A range is given but holds fewer than 25 numbers: drawing a sheet's numbers from it raises. */
  predicate TooFewNumbers(lowHigh: Option<(int, int)>) {
    lowHigh.Some? && lowHigh.value.1 - lowHigh.value.0 + 1 < SheetNumbers
  }

  /**
   * `make_bingo_sheet(low_high)`. A range, even `(0, 0)`, counts as given;
   * with one the sheet's numbers come from `get_numbers`, which raises for
   * a range of fewer than 25 values.
   */
  function MakeBingoSheet(lowHigh: Option<(int, int)>, oracle: Oracle): (r: Result<seq<Element>, SampleError>)
    ensures r.Failure? <==> TooFewNumbers(lowHigh)
  {
    match lowHigh
    case None =>
      Success(SheetLayout(lowHigh, []))
    case Some(lh) =>
      var numbers :- Sample(lh.0, lh.1, oracle);
      Success(SheetLayout(lowHigh, numbers))
  }

  /**
   * What `make_bingo_sheet` draws: without a range the blank sheet; with
   * one, each cell carrying the matching number drawn by `get_numbers`.
   */
  lemma BingoSheetLayout(lowHigh: Option<(int, int)>, oracle: Oracle)
    ensures var r := MakeBingoSheet(lowHigh, oracle);
      && (r.Success? && lowHigh.None? ==> IsBlankSheet(r.value))
      && (r.Success? && lowHigh.Some? ==>
            IsNumberedSheet(r.value, lowHigh.value, Sample(lowHigh.value.0, lowHigh.value.1, oracle).value))
  {
    match lowHigh
    case None =>
      LayoutShape(lowHigh, []);
    case Some(lh) =>
      var numbers := Sample(lh.0, lh.1, oracle);
      if numbers.Success? {
        LayoutShape(lowHigh, numbers.value);
      }
  }

  /** A sheet reads the oracle's first 25 values and nothing after them. */
  lemma BingoSheetReadsPrefix(lowHigh: Option<(int, int)>, oracle: Oracle)
    requires |oracle| >= SheetNumbers
    ensures MakeBingoSheet(lowHigh, oracle) == MakeBingoSheet(lowHigh, oracle[..SheetNumbers])
  {
    if lowHigh.Some? {
      SampleReadsPrefix(lowHigh.value.0, lowHigh.value.1, oracle);
    }
  }

  /** The layout is the blank shape without numbers and the numbered shape with them. */
  lemma LayoutShape(lowHigh: Option<(int, int)>, numbers: seq<int>)
    requires NumbersFit(lowHigh, numbers)
    ensures numbers == [] ==> IsBlankSheet(SheetLayout(lowHigh, numbers))
    ensures numbers != [] ==> IsNumberedSheet(SheetLayout(lowHigh, numbers), lowHigh.value, numbers)
  {
    var cells := CellElements(lowHigh, numbers, CellCount);
    var els := SheetLayout(lowHigh, numbers);
    assert forall k :: 0 <= k < |cells| ==> els[2 + k] == cells[k];
    if numbers == [] {
      forall i | 0 <= i < CellCount
        ensures els[2 + i] == CellRect(Grid()[i])
      {
        assert els[2 + i] == cells[i] == CellRects()[i];
      }
    } else {
      forall i | 0 <= i < CellCount
        ensures && els[2 + 3 * i] == CellRect(Grid()[i])
                && els[3 + 3 * i] == NumberLabel(numbers[i], Grid()[i])
                && els[4 + 3 * i] == Caption(lowHigh.value)
      {
        assert els[2 + 3 * i] == cells[3 * i] == CellRects()[i];
        assert els[3 + 3 * i] == cells[3 * i + 1] == NumberLabels(numbers)[i];
        assert els[4 + 3 * i] == cells[3 * i + 2];
      }
    }
  }

  /** The text an element shows, if any. */
  function Shown(e: Element): string {
    if e.Text? then e.text else ""
  }

  /** The texts of the 25 number labels of a numbered sheet, in cell order. */
  function LabelTexts(els: seq<Element>): (texts: seq<string>)
    requires |els| == 2 + 3 * CellCount
    ensures |texts| == CellCount
  {
    seq(CellCount, i requires 0 <= i < CellCount => Shown(els[3 + 3 * i]))
  }

  /**
   * Every cell square lies inside the 88 x 132 sheet, below the title band
   * that ends at y = 48.
   */
  lemma CellsInsideSheet()
    ensures forall i :: 0 <= i < CellCount ==>
              && 0.0 < Grid()[i].0 as real && Grid()[i].0 as real + CellSize as real < SheetW
              && 48.0 <= Grid()[i].1 as real && Grid()[i].1 as real + CellSize as real < SheetH
  {
  }

  /**
   * The cells are listed column by column and never overlap: a later cell
   * is in a column further right, or lower down in the same column.
   */
  lemma CellsColumnMajor()
    ensures forall i, j :: 0 <= i < j < CellCount ==>
              || Grid()[i].0 + CellSize <= Grid()[j].0
              || (Grid()[i].0 == Grid()[j].0 && Grid()[i].1 + CellSize <= Grid()[j].1)
  {
    forall i, j | 0 <= i < j < CellCount
      ensures || Grid()[i].0 + CellSize <= Grid()[j].0
              || (Grid()[i].0 == Grid()[j].0 && Grid()[i].1 + CellSize <= Grid()[j].1)
    {
      if i / 5 < j / 5 {
        assert Grid()[i].0 + CellSize <= Grid()[j].0;
      } else {
        assert i / 5 == j / 5 && i % 5 < j % 5;
      }
    }
  }

  /** The title sits at (44, 30) and the caption at (4, 44): both derive from the first cell at (4, 48). */
  lemma TextAnchors(lowHigh: (int, int))
    ensures Grid()[0] == (4, 48)
    ensures Title().x == 44.0 && Title().y == 30.0
    ensures Caption(lowHigh).x == 4.0 && Caption(lowHigh).y == 44.0
  {
  }

  /** The three kinds of text differ in font size, so none can stand for another. */
  lemma ElementKindsDiffer(lowHigh: (int, int), n: int, i: nat)
    requires i < CellCount
    ensures CellRect(Grid()[i]) != Caption(lowHigh) && NumberLabel(n, Grid()[i]) != Caption(lowHigh)
    ensures Background() != Caption(lowHigh) && Title() != Caption(lowHigh)
    ensures NumberLabel(n, Grid()[i]).Text? && !CellRect(Grid()[i]).Text?
  {
  }

  /** Each turn of the numbered cell loop adds exactly one copy of the caption. */
  lemma {:induction false} CaptionCount(lowHigh: (int, int), numbers: seq<int>, n: nat)
    requires n <= CellCount && |numbers| == CellCount
    ensures multiset(CellElements(Some(lowHigh), numbers, n))[Caption(lowHigh)] == n
  {
    if n > 0 {
      CaptionCount(lowHigh, numbers, n - 1);
      var prev := CellElements(Some(lowHigh), numbers, n - 1);
      var g := CellGroup(Some(lowHigh), numbers, n - 1);
      ElementKindsDiffer(lowHigh, numbers[n - 1], n - 1);
      assert g == [CellRect(Grid()[n - 1]), NumberLabel(numbers[n - 1], Grid()[n - 1]), Caption(lowHigh)];
      assert multiset(g)[Caption(lowHigh)] == 1;
      assert multiset(prev + g) == multiset(prev) + multiset(g);
    }
  }

  /** A numbered sheet repeats the caption once per cell: 25 copies, one after each label. */
  lemma CaptionRepeated(lowHigh: (int, int), numbers: seq<int>)
    requires |numbers| == CellCount
    ensures multiset(SheetLayout(Some(lowHigh), numbers))[Caption(lowHigh)] == CellCount
  {
    CaptionCount(lowHigh, numbers, CellCount);
    ElementKindsDiffer(lowHigh, 0, 0);
    var cells := CellElements(Some(lowHigh), numbers, CellCount);
    assert multiset([Background(), Title()] + cells) == multiset([Background(), Title()]) + multiset(cells);
  }

  /** A blank sheet carries no text but the title: everything after it is a cell square. */
  lemma BlankSheetHasOnlyTitle(els: seq<Element>)
    requires IsBlankSheet(els)
    ensures forall k :: 0 <= k < |els| ==> (els[k].Text? <==> k == 1)
  {
    forall k | 2 <= k < |els|
      ensures els[k].Rectangle?
    {
      assert els[2 + (k - 2)] == CellRect(Grid()[k - 2]);
    }
  }

  /** The decimal forms of a list of integers, in order. */
  function Numerals(numbers: seq<int>): (r: seq<string>)
    ensures |r| == |numbers|
  {
    seq(|numbers|, i requires 0 <= i < |numbers| => IntToString(numbers[i]))
  }

  /** Different integers have different decimal forms, so distinct numbers give distinct numerals. */
  lemma NumeralsDistinct(numbers: seq<int>)
    requires Distinct(numbers)
    ensures Distinct(Numerals(numbers))
    ensures forall i :: 0 <= i < |numbers| ==> IntValue(Numerals(numbers)[i]) == numbers[i]
  {
    var r := Numerals(numbers);
    forall i, j | 0 <= i < j < |r|
      ensures r[i] != r[j]
    {
      if r[i] == r[j] {
        IntToStringInjective(numbers[i], numbers[j]);
      }
    }
  }

  /** The label texts of a numbered sheet are the numerals of its numbers. */
  lemma LabelTextsAreNumerals(els: seq<Element>, lowHigh: (int, int), numbers: seq<int>)
    requires IsNumberedSheet(els, lowHigh, numbers)
    ensures forall i :: 0 <= i < CellCount ==> els[3 + 3 * i].Text?
    ensures LabelTexts(els) == Numerals(numbers)
  {
    var texts, numerals := LabelTexts(els), Numerals(numbers);
    forall i | 0 <= i < CellCount
      ensures els[3 + 3 * i].Text? && texts[i] == numerals[i]
    {
      LabelAt(els, lowHigh, numbers, i);
      LabelShows(els, numbers, i);
    }
    SameElements(texts, numerals);
  }

  /** Slot `3 + 3 * i` of a numbered sheet holds the label of cell `i`. */
  lemma LabelAt(els: seq<Element>, lowHigh: (int, int), numbers: seq<int>, i: nat)
    requires IsNumberedSheet(els, lowHigh, numbers) && i < CellCount
    ensures els[3 + 3 * i] == NumberLabel(numbers[i], Grid()[i])
  {
  }

  /** A number label shows the decimal form of its number. */
  lemma LabelShows(els: seq<Element>, numbers: seq<int>, i: nat)
    requires |els| == 2 + 3 * CellCount && |numbers| == CellCount && i < CellCount
    requires els[3 + 3 * i] == NumberLabel(numbers[i], Grid()[i])
    ensures els[3 + 3 * i].Text? && LabelTexts(els)[i] == Numerals(numbers)[i]
  {
  }

  /**
   * The 25 labels of a numbered sheet are pairwise different numerals, each
   * reading back as a value of the range.
   */
  lemma NumberLabelsDistinct(els: seq<Element>, lowHigh: (int, int), numbers: seq<int>)
    requires IsNumberedSheet(els, lowHigh, numbers)
    requires Distinct(numbers) && forall i :: 0 <= i < |numbers| ==> lowHigh.0 <= numbers[i] <= lowHigh.1
    ensures forall i :: 0 <= i < CellCount ==> els[3 + 3 * i].Text?
    ensures LabelTexts(els) == Numerals(numbers) && Distinct(LabelTexts(els))
    ensures forall i :: 0 <= i < CellCount ==> lowHigh.0 <= IntValue(Numerals(numbers)[i]) <= lowHigh.1
  {
    LabelTextsAreNumerals(els, lowHigh, numbers);
    NumeralsDistinct(numbers);
  }

  /**
   * A numbered sheet `make_bingo_sheet` returns carries 25 number labels
   * with no two alike, each showing a number of the range.
   */
  lemma BingoSheetLabelsDistinct(lowHigh: (int, int), oracle: Oracle)
    ensures var r := MakeBingoSheet(Some(lowHigh), oracle);
      r.Success? ==> LabelsShowDrawnNumbers(r.value, lowHigh)
  {
    var numbers := Sample(lowHigh.0, lowHigh.1, oracle);
    if numbers.Success? {
      BingoSheetLayout(Some(lowHigh), oracle);
      SampledLabels(MakeBingoSheet(Some(lowHigh), oracle).value, lowHigh, numbers.value);
    }
  }

  /** The 25 labels are texts, pairwise different, each the decimal form of a number of the range. */
  ghost predicate LabelsShowDrawnNumbers(els: seq<Element>, lowHigh: (int, int)) {
    && |els| == 2 + 3 * CellCount
    && (forall i :: 0 <= i < CellCount ==> els[3 + 3 * i].Text?)
    && Distinct(LabelTexts(els))
    && forall i :: 0 <= i < CellCount ==> exists n :: lowHigh.0 <= n <= lowHigh.1 && LabelTexts(els)[i] == IntToString(n)
  }

  lemma SampledLabels(els: seq<Element>, lowHigh: (int, int), numbers: seq<int>)
    requires IsNumberedSheet(els, lowHigh, numbers)
    requires Distinct(numbers) && forall x :: x in numbers ==> lowHigh.0 <= x <= lowHigh.1
    ensures LabelsShowDrawnNumbers(els, lowHigh)
  {
    LabelTextsAreNumerals(els, lowHigh, numbers);
    NumeralsDistinct(numbers);
    var texts := LabelTexts(els);
    forall i | 0 <= i < CellCount
      ensures exists n :: lowHigh.0 <= n <= lowHigh.1 && texts[i] == IntToString(n)
    {
      assert numbers[i] in numbers;
      assert texts[i] == Numerals(numbers)[i] == IntToString(numbers[i]);
    }
  }
}
