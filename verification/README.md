# Bingo sheets, modelled in Dafny

`bingo-sheets.py` prints A4 pages of bingo sheets as SVG files. Each page
holds four 88 x 132 sheets in a 2 x 2 block, with cut marks around it.
Each sheet holds a 5 x 5 grid of cells. When the sheets are numbered, each
cell holds one of 25 distinct numbers drawn from a range `(low, high)`.

This project models the logic of the script as plain data and pure
functions:

- the drawing of the numbers (`get_numbers`);
- the elements of one sheet (`make_bingo_sheet`);
- the page (`make_paper`, `put_sheets_on_paper`);
- the list of pages (`make_paper_list`);
- the names of the files and of their directory (`make_filename`,
  `make_subdirectory_name`);
- what a batch writes (`output_papers`).

It proves what these promise.

Modules, in dependency order:

| file | module | what it holds |
|---|---|---|
| `wrappers.dfy` | `Wrappers` | `Option` and `Result` |
| `sequtil.dfy` | `SeqUtil` | repetition-free sequences, separators, pairs, tabulation |
| `decimal.dfy` | `Decimal` | `str(n)` and `f"{n:02}"`, and reading them back |
| `ranges.dfy` | `Ranges` | `range(start, stop, step)` and the two-loop comprehension |
| `sampler.dfy` | `Sampler` | `random.sample` over `range(low, high + 1)` |
| `sheet.dfy` | `Sheet` | `make_bingo_sheet` |
| `paper.dfy` | `Paper` | `make_paper`, `put_sheets_on_paper`, `make_paper_list` |
| `output.dfy` | `Output` | `make_filename`, `make_subdirectory_name`, `output_papers` |

Modelling choices:

- **The optional range.** The range argument is `Option<(int, int)>`. The
  script tests `if low_high:`, and any 2-tuple is truthy, so `(0, 0)`
  counts as a given range. With such a range the script fails to draw
  numbers. It does not fall back to a blank sheet.
- **Randomness.** Randomness is an explicit oracle: a sequence of
  naturals. Each draw reduces the next value modulo the size of what is
  left in the pool. This is the pool procedure of `random.sample`: pick
  slot `j`, move the last element into it, shrink the pool by one. Sheet
  `k` of a page reads the oracle from position `25 * k`. Page `i` reads it
  from position `100 * i`.
- **Errors.** `random.sample` raises when the range holds fewer than 25
  numbers. The model returns `Failure(SampleLargerThanPopulation)` instead.
  That error propagates:
  - `make_bingo_sheet` fails;
  - `put_sheets_on_paper` fails, at its first sheet;
  - `make_paper_list` fails when it makes at least one page;
  - `output_papers` fails before writing any file, after creating the
    directory.
- **Coordinates.** Coordinates are `real`, so `PAPER_H / 2 = 148.5` is
  exact.
- **Placements.** A sheet or a cut mark used at an offset is kept as data
  (`Use`, `UseMark`). The geometry is stated about those placements.
- **The filesystem.** The filesystem is a value. `OutputPapers` returns
  the directory it creates and the list of `(name, page)` writes, in
  order. `Files` gives what the directory holds afterwards, from what it
  held before: `mkdir(exist_ok=True)` keeps the files of earlier runs, and
  a later write to the same name replaces the earlier one.

Behaviour worth noting:

- **The sheet block sits off the page's centre.** The four sheets tile a
  block that spans `[-193, -17] x [-280.5, -16.5]`. The canvas's origin
  is its centre, so this block is centred on `(-105, -148.5)`, which is
  the top-left corner of the white background. Only the fourth sheet lies
  on the background. The second and third touch it only along one edge,
  and the first lies wholly off it (`Paper.BlockAgainstBackground`).
- **The caption is repeated.** The caption "For the numbers {low} to
  {high}." is appended inside the cell loop. A numbered sheet therefore
  carries 25 identical copies of it (`Sheet.CaptionRepeated`).
- **The grid is listed column by column.** The 25 cells form 5 columns of
  5 rows, and the comprehension lists them column by column
  (`Sheet.GridIsCrossProduct`).

## Model

| member | source | states |
|---|---|---|
| Sampler.GetNumbers | bingo-sheets.py:14-16 | fails exactly when `high - low + 1 < 25`; otherwise returns 25 pairwise-distinct numbers, each within `[low, high]` |
| Sampler.Sample | bingo-sheets.py:14-16 | the same promise for the functional form of `random.sample(range(low, high + 1), 25)` |
| Sampler.SampleComplete | bingo-sheets.py:14-16 | the promise is exact: every list of 25 distinct numbers of `[low, high]` is the sample for some sequence of random choices |
| Sampler.SampleReadsPrefix | bingo-sheets.py:16 | a sample of 25 depends only on the first 25 random choices |
| Sampler.DrawLoop | bingo-sheets.py:16 | the draw-and-shrink loop over the pool yields the draws `Draw` defines |
| Sampler.Population | bingo-sheets.py:16 | `[i for i in range(low, high + 1)]` holds each integer of `[low, high]` exactly once, and nothing else |
| Ranges.Range | bingo-sheets.py:43 | term `i` of `range(start, stop, step)` is `start + step * i`, every term lies below `stop`, and the next term would not |
| Ranges.Cross | bingo-sheets.py:43 | the two-loop comprehension puts `(xs[a], ys[b])` at position `a * len(ys) + b` |
| Sheet.GridIsCrossProduct | bingo-sheets.py:43 | the comprehension over `range(4, 69, 16)` and `range(48, 113, 16)` gives cell `i` at `(4 + 16 * (i / 5), 48 + 16 * (i % 5))` |
| Sheet.CellsInsideSheet | bingo-sheets.py:66-75 | every 16 x 16 cell lies inside the 88 x 132 sheet and below the title band |
| Sheet.CellsColumnMajor | bingo-sheets.py:43 | a later cell lies in a column further right, or lower in the same column, so no two cells overlap |
| Sheet.MakeBingoSheet | bingo-sheets.py:41-44 | a sheet fails exactly when a range is given that holds fewer than 25 numbers |
| Sheet.BingoSheetLayout | bingo-sheets.py:41-100 | without a range: background, title and 25 cells. With one: background, title, then for each cell its square, the label `numbers[i]` drawn by `get_numbers`, and the caption |
| Sheet.TextAnchors | bingo-sheets.py:55-97 | the title sits at `(44, 30)` and the caption at `(4, 44)`, both derived from the first cell at `(4, 48)` |
| Sheet.CaptionRepeated | bingo-sheets.py:77-98 | a numbered sheet contains exactly 25 copies of the caption |
| Sheet.BlankSheetHasOnlyTitle | bingo-sheets.py:44-77 | a blank sheet carries no text but the title: no number labels and no captions |
| Sheet.LabelTextsAreNumerals | bingo-sheets.py:78-87 | the label of cell `i` is a text showing the decimal form of `numbers[i]` |
| Sheet.NumberLabelsDistinct | bingo-sheets.py:78-87 | the 25 labels of a numbered sheet are pairwise different, and each reads back as a number of the range |
| Sheet.BingoSheetLabelsDistinct | bingo-sheets.py:44-87 | a numbered sheet `make_bingo_sheet` returns carries 25 labels, pairwise different, each the decimal form of a number of the range |
| Decimal.IntToString | bingo-sheets.py:79 | `f"{n}"` is a non-empty numeral, signed exactly when `n < 0`, with no leading zero (a lone `0` only for zero, no `-0…`), that reads back as `n` |
| Decimal.IntToStringInjective | bingo-sheets.py:79 | different numbers have different decimal forms |
| Decimal.Pad2 | bingo-sheets.py:159 | `f"{n:02}"` is at least two characters, exactly two for `-9..99`, starts with `0` exactly for `0..9`, has no zero after a minus sign, and reads back as `n`, so above 99 it grows with no padding |
| Decimal.Pad2Injective | bingo-sheets.py:159 | different sheet numbers have different zero-padded forms |
| Decimal.Pad2Examples | bingo-sheets.py:159 | `5 -> "05"`, `12 -> "12"`, `-5 -> "-5"`, `100 -> "100"` |
| Paper.MakePaper | bingo-sheets.py:19-38 | the canvas is 210 x 297 at pixel scale 4, with a background of the canvas's size whose corner is at minus half its width and height |
| Paper.PutSheetsOnPaper | bingo-sheets.py:103-109 | a page fails exactly when the range is too small for 25 numbers |
| Paper.FirstSheetFails | bingo-sheets.py:106 | in that case it is the first sheet that raises, with the sampler's error |
| Paper.SheetsInSequence | bingo-sheets.py:106-109 | the four sheets are made one after another from consecutive random choices: sheet `k` depends only on values `25 * k` to `25 * k + 24` |
| Paper.PageReadsPrefix | bingo-sheets.py:103-109 | a page depends only on its first 100 random choices, 25 per sheet |
| Paper.PageLayout | bingo-sheets.py:103-147 | a page holds the A4 canvas, sheet `k` at offset `k`, then six vertical and six horizontal marks at the listed positions, in order |
| Paper.SheetsTile | bingo-sheets.py:111-114 | sheet 2 sits right of sheet 1, sheet 3 below it and sheet 4 diagonally, with no gap; the block spans `[-193, -17] x [-280.5, -16.5]` |
| Paper.BlockAgainstBackground | bingo-sheets.py:111-114 | the block is centred on `(-105, -148.5)`, the background's corner: the fourth sheet lies on the background, the second and third meet it only along their bottom and right edge, and the first lies wholly off it |
| Paper.VerticalMarksCrossEdges | bingo-sheets.py:117-130 | each vertical mark is a vertical line two units long, at the seam or one unit inside a side edge, spanning `[edge - 1, edge + 1]` of the top or bottom edge |
| Paper.HorizontalMarksCrossEdges | bingo-sheets.py:132-145 | each horizontal mark is a horizontal line two units long, at the seam or one unit inside the top or bottom edge, spanning `[edge - 1, edge + 1]` of the left or right edge |
| Paper.BlankPageRepeatsOneSheet | bingo-sheets.py:106-109 | without a range the four sheets of a page are one and the same blank sheet |
| Paper.MakePaperList | bingo-sheets.py:150-153 | `max(count, 0)` pages; page `i` is `put_sheets_on_paper` run on the random choices left for it; fails exactly when at least one page is made and the range is too small |
| Paper.PaperListPages | bingo-sheets.py:150-153 | every page of the list is laid out as `put_sheets_on_paper` lays it out |
| Paper.PagesInSequence | bingo-sheets.py:153 | the pages are made one after another from consecutive random choices: page `i` depends only on values `100 * i` to `100 * i + 99` |
| Output.MakeFilename | bingo-sheets.py:156-161 | every name ends in `.svg` and starts with a numeral exactly when a range is given |
| Output.FilenameExample | bingo-sheets.py:159 | sheet 5 of the range `(1, 40)` is saved as `05_bingo_sheets_A4_1_40.svg` |
| Output.FilenameInjective | bingo-sheets.py:157-159 | a ranged file name determines both its sheet number and its range |
| Output.BlankFilenameIgnoresNumber | bingo-sheets.py:160-161 | without a range every sheet number gives the same name, and that name is no ranged name |
| Output.BlankExamples | bingo-sheets.py:156-169 | the blank names are `bingo_sheets_A4_blank.svg` and `bingo_sheets_A4_blank_svg` |
| Output.MakeSubdirectoryName | bingo-sheets.py:164-169 | every directory name starts with `bingo_sheets_A4_` and ends with `_svg` |
| Output.SubdirectoryExample | bingo-sheets.py:167 | the range `(1, 40)` gets `bingo_sheets_A4_1_40_svg` |
| Output.SubdirectoryInjective | bingo-sheets.py:164-169 | different ranges get different directories, none of them the blank one |
| Output.FileNamesAt | bingo-sheets.py:178-179 | file `i` of a batch, counting from 0, is named after sheet number `i + 1` |
| Output.OutputPapers | bingo-sheets.py:172-182 | creates the batch's directory; fails exactly when `make_paper_list` would, and then writes nothing; otherwise writes sheets `1..count` under their names, holding exactly the pages of `make_paper_list`, in order |
| Output.WritePages | bingo-sheets.py:178-182 | the save loop: fails exactly when sheets must be drawn from too small a range, and only on the first page, before any write; otherwise sheet `i + 1`'s name goes with page `i` for every page |
| Output.Files | bingo-sheets.py:176-182 | the directory keeps the files it held before and gains the names written; a name written holds the last page written to it, and any other name keeps its old page |
| Output.RangedBatchKeepsEveryPage | bingo-sheets.py:178-182 | a ranged batch writes `count` pairwise-different names, each keeping its own page; an empty directory ends up with exactly `count` files |
| Output.BlankBatchKeepsLastPage | bingo-sheets.py:178-182 | a blank batch writes every page to one name, so the directory gains at most that one file, and it holds the last page |

## Left out

- Rendering by drawsvg (`d.Drawing`, `d.Group`, `d.Use`, `d.Line`, `save_svg`) is a foreign library. Placements and lines are kept as data instead. `set_pixel_scale(4)` is kept only as a number on the canvas.
- Styling attributes are presentation only: fill colours, font family, stroke, stroke width, word spacing and letter spacing. Font size and centring are kept, because they tell the three kinds of text apart.
- The filesystem is I/O. This covers the script's directory (`Path(__file__).parent`), `mkdir` and the bytes of each SVG file. `OutputPapers` returns the directory name and the ordered writes instead.
- The `random` module's generator and its distribution are ambient state. Choices come from an explicit oracle. The model does not say how likely each sample is, only which samples can occur.
- Sampler.Sample: always uses the pool procedure. For populations above 277 values, CPython picks by rejection from a set. Both procedures promise the same postcondition, and `SampleComplete` shows the postcondition is exact. Each draw reads exactly one oracle value, whereas CPython's `randbelow` may consume a varying number of random bits.
- Decimal.IntToString: does not model CPython's limit on converting integers of more than 4300 digits to text (`sys.int_info.default_max_str_digits`). Above it, `str`, `f"{n}"` and `f"{n:02}"` raise `ValueError`, for example at lines 79, 159 and 167. So for such ranges the script fails where `MakeBingoSheet`, `MakeFilename` and `MakeSubdirectoryName` succeed. The limit is an interpreter setting, not part of the script's logic.
- Output.MakeFilename: `sheet_number` is an `int`. A range with a missing sheet number raises `TypeError` in the script, but `output_papers` always passes a number.
- Output.OutputPapers: takes `count` and the range explicitly. The defaults `count = 1` and no range, which only the `__main__` call relies on, are not modelled.
- The `__main__` block and its commented-out batch loop are an entry point, not logic.
