/**
 * `make_filename`, `make_subdirectory_name` and `output_papers`: the names
 * under which the pages are saved, and which page each file ends up
 * holding.
 *
 * The filesystem is a value: `output_papers` yields the directory it
 * creates and the writes it performs, in order; `Files` is what the
 * directory holds afterwards, a later write to a name replacing an earlier
 * one.
 */
module Output {
  import opened Wrappers
  import opened SeqUtil
  import opened Decimal
  import opened Sampler
  import opened Sheet
  import opened Paper

  /** What every name of a batch starts with. */
  const NamePrefix: string := "bingo_sheets_A4_"

  /** `{low}_{high}`: a range as it appears in names. */
  function RangeText(lowHigh: (int, int)): string {
    IntToString(lowHigh.0) + "_" + IntToString(lowHigh.1)
  }

  /** The stem shared by a batch's subdirectory and file names: the prefix, then the range or `blank`. */
  function BatchName(lowHigh: Option<(int, int)>): (name: string)
    ensures |name| > |NamePrefix| && name[..|NamePrefix|] == NamePrefix
  {
    match lowHigh
    case None => NamePrefix + "blank"
    case Some(lh) => NamePrefix + RangeText(lh)
  }

  /**
   * `make_filename(sheet_number, low_high)`: with a range,
   * `{sheet_number:02}_bingo_sheets_A4_{low}_{high}.svg`; without one,
   * `bingo_sheets_A4_blank.svg` whatever the sheet number.
   */
  function MakeFilename(sheetNumber: int, lowHigh: Option<(int, int)>): (name: string)
    ensures |name| > 4 && name[|name| - 4..] == ".svg"
    ensures lowHigh.Some? <==> IsNumeral(name[0])
  {
    match lowHigh
    case None => BatchName(None) + ".svg"
    case Some(_) =>
      var padded := Pad2(sheetNumber);
      var name := padded + "_" + (BatchName(lowHigh) + ".svg");
      assert name[0] == padded[0];
      name
  }

  /**
   * `make_subdirectory_name(low_high)`: `bingo_sheets_A4_{low}_{high}_svg`,
   * or `bingo_sheets_A4_blank_svg` without a range.
   */
  function MakeSubdirectoryName(lowHigh: Option<(int, int)>): (name: string)
    ensures |name| > |NamePrefix| + 4 && name[..|NamePrefix|] == NamePrefix && name[|name| - 4..] == "_svg"
  {
    var name := BatchName(lowHigh) + "_svg";
    assert name[..|NamePrefix|] == BatchName(lowHigh)[..|NamePrefix|];
    name
  }

  /** A numeral holds no underscore, so an underscore after it marks where it ends. */
  lemma NumeralHasNoUnderscore(s: string)
    requires forall k :: 0 <= k < |s| ==> IsNumeral(s[k])
    ensures '_' !in s
  {
    forall k | 0 <= k < |s|
      ensures s[k] != '_'
    {
      assert IsNumeral(s[k]);
    }
  }

  /** Two numerals each followed by an underscore: equal texts mean equal numerals and equal rests. */
  lemma SplitAfterNumeral(a: string, b: string, c: string, d: string)
    requires forall k :: 0 <= k < |a| ==> IsNumeral(a[k])
    requires forall k :: 0 <= k < |c| ==> IsNumeral(c[k])
    requires a + "_" + b == c + "_" + d
    ensures a == c && b == d
  {
    NumeralHasNoUnderscore(a);
    NumeralHasNoUnderscore(c);
    SplitAtSeparator(a, b, c, d, '_');
  }

  /** `{low}_{high}` determines the range. */
  lemma RangeTextInjective(lowHigh: (int, int), lowHigh': (int, int))
    requires RangeText(lowHigh) == RangeText(lowHigh')
    ensures lowHigh == lowHigh'
  {
    SplitAfterNumeral(IntToString(lowHigh.0), IntToString(lowHigh.1), IntToString(lowHigh'.0), IntToString(lowHigh'.1));
    IntToStringInjective(lowHigh.0, lowHigh'.0);
    IntToStringInjective(lowHigh.1, lowHigh'.1);
  }

  /** The batch stem determines the range, and tells a blank batch from every ranged one. */
  lemma BatchNameInjective(lowHigh: Option<(int, int)>, lowHigh': Option<(int, int)>)
    requires BatchName(lowHigh) == BatchName(lowHigh')
    ensures lowHigh == lowHigh'
  {
    var rest := BatchName(lowHigh)[|NamePrefix|..];
    var rest' := BatchName(lowHigh')[|NamePrefix|..];
    assert rest == rest';
    match lowHigh
    case None =>
      assert rest == "blank";
      if lowHigh'.Some? {
        RangeTextAfterPrefix(lowHigh'.value);
        assert false;
      }
    case Some(lh) =>
      RangeTextAfterPrefix(lh);
      match lowHigh'
      case None =>
        assert false;
      case Some(lh') =>
        RangeTextAfterPrefix(lh');
        RangeTextInjective(lh, lh');
  }

  /** After the prefix, a ranged stem continues with the range text, which starts with a numeral. */
  lemma RangeTextAfterPrefix(lh: (int, int))
    ensures BatchName(Some(lh))[|NamePrefix|..] == RangeText(lh)
    ensures |RangeText(lh)| > 0 && IsNumeral(RangeText(lh)[0])
  {
    var l := IntToString(lh.0);
    assert RangeText(lh)[0] == l[0];
  }

  /**
   * A ranged filename determines its sheet number and range: different
   * sheets of a batch, or batches of different ranges, never share a file.
   */
  lemma FilenameInjective(n: int, lowHigh: (int, int), n': int, lowHigh': (int, int))
    requires MakeFilename(n, Some(lowHigh)) == MakeFilename(n', Some(lowHigh'))
    ensures n == n' && lowHigh == lowHigh'
  {
    var stem, stem' := BatchName(Some(lowHigh)), BatchName(Some(lowHigh'));
    SplitAfterNumeral(Pad2(n), stem + ".svg", Pad2(n'), stem' + ".svg");
    Pad2Injective(n, n');
    CancelSuffix(stem, stem', ".svg");
    BatchNameInjective(Some(lowHigh), Some(lowHigh'));
  }

  /** Without a range the sheet number is ignored: every file of the batch has the same name. */
  lemma BlankFilenameIgnoresNumber(n: int, n': int)
    ensures MakeFilename(n, None) == MakeFilename(n', None)
    ensures forall lh: (int, int) :: MakeFilename(n, None) != MakeFilename(n', Some(lh))
  {
    forall lh: (int, int)
      ensures MakeFilename(n, None) != MakeFilename(n', Some(lh))
    {
      assert MakeFilename(n, None)[0] == 'b';
    }
  }

  /** Different ranges get different subdirectories, and none of them is the blank one. */
  lemma SubdirectoryInjective(lowHigh: Option<(int, int)>, lowHigh': Option<(int, int)>)
    requires MakeSubdirectoryName(lowHigh) == MakeSubdirectoryName(lowHigh')
    ensures lowHigh == lowHigh'
  {
    CancelSuffix(BatchName(lowHigh), BatchName(lowHigh'), "_svg");
    BatchNameInjective(lowHigh, lowHigh');
  }

  lemma RangeTextExample()
    ensures RangeText((1, 40)) == "1_40"
  {
    assert IntToString(1) == "1";
    assert NatToString(4) == "4";
    assert IntToString(40) == "40";
  }

  lemma BatchNameExample()
    ensures BatchName(Some((1, 40))) == "bingo_sheets_A4_1_40"
  {
    RangeTextExample();
  }

  /** Sheet 5 of the batch for the numbers 1 to 40. */
  lemma FilenameExample()
    ensures MakeFilename(5, Some((1, 40))) == "05_bingo_sheets_A4_1_40.svg"
  {
    BatchNameExample();
    Pad2Examples();
  }

  /** The subdirectory of the batch for the numbers 1 to 40. */
  lemma SubdirectoryExample()
    ensures MakeSubdirectoryName(Some((1, 40))) == "bingo_sheets_A4_1_40_svg"
  {
    BatchNameExample();
  }

  /** The blank batch's names. */
  lemma BlankExamples()
    ensures MakeFilename(5, None) == "bingo_sheets_A4_blank.svg"
    ensures MakeSubdirectoryName(None) == "bingo_sheets_A4_blank_svg"
  {
  }

  /**
   * What a call of `output_papers` does: the subdirectory it creates, then
   * one write per page made, in order. `error` is the exception that ended
   * the loop, if any; the directory exists even then.
   */
  datatype Outcome = Outcome(subdirectory: string, writes: seq<(string, Page)>, error: Option<SampleError>)

  /** Sheet numbers count from 1: page `i`, counting from 0, is saved as sheet `i + 1`. */
  function SheetNumber(i: nat): int {
    i + 1
  }

  /** The names of the first `n` files of a batch, in the order they are written. */
  function FileNames(n: nat, lowHigh: Option<(int, int)>): (names: seq<string>)
    ensures |names| == n
  {
    Tabulate(n, i => MakeFilename(SheetNumber(i), lowHigh))
  }

  /** File `i` of a batch, counting from 0, is named after sheet `i + 1`. */
  lemma FileNamesAt(n: nat, lowHigh: Option<(int, int)>)
    ensures forall i :: 0 <= i < n ==> FileNames(n, lowHigh)[i] == MakeFilename(SheetNumber(i), lowHigh)
  {
    TabulateAt(n, i => MakeFilename(SheetNumber(i), lowHigh));
  }

  /** Writing one more file appends its name and renames none of the earlier ones. */
  lemma FileNamesStep(i: nat, lowHigh: Option<(int, int)>)
    ensures FileNames(i + 1, lowHigh) == FileNames(i, lowHigh) + [MakeFilename(SheetNumber(i), lowHigh)]
  {
  }

  /**
   * `output_papers(count, low_high)`: create the subdirectory, then for
   * each sheet number `f` in `1..count` make a page and save it under
   * `make_filename(f, low_high)`; page `f` draws from the oracle left for
   * it. The first page fails if any does, so a failing call writes
   * nothing. Otherwise the files written are named after sheets `1..count`
   * in order and hold exactly the pages `make_paper_list(count, low_high)`
   * makes.
   */
  method OutputPapers(count: int, lowHigh: Option<(int, int)>, oracle: Oracle) returns (out: Outcome)
    ensures out.subdirectory == MakeSubdirectoryName(lowHigh)
    ensures out.error.Some? <==> MakePaperList(count, lowHigh, oracle).Failure?
    ensures out.error.Some? ==> out.writes == []
    ensures out.error.None? ==> Firsts(out.writes) == FileNames(PageCount(count), lowHigh)
    ensures out.error.None? ==> Seconds(out.writes) == MakePaperList(count, lowHigh, oracle).value
  {
    var subdirectory := MakeSubdirectoryName(lowHigh);
    var writes, error := WritePages(count, lowHigh, oracle);
    return Outcome(subdirectory, writes, error);
  }

  /**
   * The loop of `output_papers`: page `i`, counting from 0, is saved under
   * the name of sheet `i + 1`. Only the first page can fail, and then
   * nothing has been written; otherwise every page is written in order.
   */
  method WritePages(count: int, lowHigh: Option<(int, int)>, oracle: Oracle) returns (writes: seq<(string, Page)>, error: Option<SampleError>)
    ensures error.Some? <==> count > 0 && TooFewNumbers(lowHigh)
    ensures error.Some? ==> writes == []
    ensures error.None? ==> Firsts(writes) == FileNames(PageCount(count), lowHigh)
    ensures error.None? ==> Seconds(writes) == MakePages(PageCount(count), lowHigh, oracle)
  {
    writes := [];
    var i := 0;
    while i < count
      invariant 0 <= i <= PageCount(count)
      invariant i == 0 || !TooFewNumbers(lowHigh)
      invariant Firsts(writes) == FileNames(i, lowHigh)
      invariant Seconds(writes) == MakePages(i, lowHigh, oracle)
    {
      var page := PutSheetsOnPaper(lowHigh, PageOracle(oracle, i));
      if page.Failure? {
        assert i == 0;
        return writes, Some(page.error);
      }
      var fileName := MakeFilename(SheetNumber(i), lowHigh);
      WriteStep(writes, i, lowHigh, oracle);
      writes := writes + [(fileName, page.value)];
      i := i + 1;
    }
    assert i == PageCount(count);
    return writes, None;
  }

  /** Writing page `i` under the name of sheet `i + 1` extends both the names and the pages by one. */
  lemma WriteStep(writes: seq<(string, Page)>, i: nat, lowHigh: Option<(int, int)>, oracle: Oracle)
    requires !TooFewNumbers(lowHigh)
    requires Firsts(writes) == FileNames(i, lowHigh) && Seconds(writes) == MakePages(i, lowHigh, oracle)
    ensures var w := writes + [(MakeFilename(SheetNumber(i), lowHigh), PutSheetsOnPaper(lowHigh, PageOracle(oracle, i)).value)];
      Firsts(w) == FileNames(i + 1, lowHigh) && Seconds(w) == MakePages(i + 1, lowHigh, oracle)
  {
    PairsSnoc(writes, (MakeFilename(SheetNumber(i), lowHigh), PutSheetsOnPaper(lowHigh, PageOracle(oracle, i)).value));
    FileNamesStep(i, lowHigh);
    MakePagesStep(i, lowHigh, oracle);
  }

  /** No later write in `writes` goes to the name write `i` went to. */
  ghost predicate LastWriteTo(writes: seq<(string, Page)>, i: int)
    requires 0 <= i < |writes|
  {
    forall j :: i < j < |writes| ==> writes[j].0 != writes[i].0
  }

  /** The names a list of writes goes to. */
  function Written(writes: seq<(string, Page)>): set<string> {
    set i | 0 <= i < |writes| :: writes[i].0
  }

  lemma WrittenSnoc(writes: seq<(string, Page)>)
    requires writes != []
    ensures Written(writes) == Written(writes[..|writes| - 1]) + {writes[|writes| - 1].0}
  {
    var n := |writes| - 1;
    forall name | name in Written(writes)
      ensures name in Written(writes[..n]) + {writes[n].0}
    {
      var i :| 0 <= i < |writes| && writes[i].0 == name;
      if i < n {
        assert writes[..n][i].0 == name;
      }
    }
    forall name | name in Written(writes[..n])
      ensures name in Written(writes)
    {
      var i :| 0 <= i < n && writes[..n][i].0 == name;
      assert writes[i].0 == name;
    }
  }

  /**
   * The directory's contents after the writes, given what it held before:
   * `mkdir(exist_ok=True)` keeps the files of earlier runs, a name not
   * written keeps its old page, and a name written holds what was last
   * written to it.
   */
  function Files(before: map<string, Page>, writes: seq<(string, Page)>): (files: map<string, Page>)
    ensures files.Keys == before.Keys + Written(writes)
    ensures forall i :: 0 <= i < |writes| && LastWriteTo(writes, i) ==> files[writes[i].0] == writes[i].1
    ensures forall name :: name in before && name !in Written(writes) ==> files[name] == before[name]
  {
    if writes == [] then
      before
    else
      var n := |writes| - 1;
      var earlier := Files(before, writes[..n]);
      FilesStep(before, writes, earlier);
      earlier[writes[n].0 := writes[n].1]
  }

  lemma FilesStep(before: map<string, Page>, writes: seq<(string, Page)>, earlier: map<string, Page>)
    requires writes != []
    requires earlier.Keys == before.Keys + Written(writes[..|writes| - 1])
    requires forall i :: 0 <= i < |writes| - 1 && LastWriteTo(writes[..|writes| - 1], i) ==>
               earlier[writes[i].0] == writes[i].1
    requires forall name :: name in before && name !in Written(writes[..|writes| - 1]) ==> earlier[name] == before[name]
    ensures var files := earlier[writes[|writes| - 1].0 := writes[|writes| - 1].1];
      && files.Keys == before.Keys + Written(writes)
      && (forall i :: 0 <= i < |writes| && LastWriteTo(writes, i) ==> files[writes[i].0] == writes[i].1)
      && forall name :: name in before && name !in Written(writes) ==> files[name] == before[name]
  {
    var n := |writes| - 1;
    var files := earlier[writes[n].0 := writes[n].1];
    WrittenSnoc(writes);
    forall i | 0 <= i < |writes| && LastWriteTo(writes, i)
      ensures writes[i].0 in files && files[writes[i].0] == writes[i].1
    {
      if i < n {
        assert writes[n].0 != writes[i].0;
        assert LastWriteTo(writes[..n], i);
      }
    }
  }

  /** Writes to pairwise different names add one name per write, each holding its own page. */
  lemma DistinctNamesKeepEveryPage(before: map<string, Page>, writes: seq<(string, Page)>)
    requires Distinct(Firsts(writes))
    ensures |Written(writes)| == |writes|
    ensures forall i :: 0 <= i < |writes| ==> Files(before, writes)[writes[i].0] == writes[i].1
  {
    EveryWriteIsLast(writes);
    WrittenAreNames(writes);
    DistinctCardinality(Firsts(writes));
  }

  lemma EveryWriteIsLast(writes: seq<(string, Page)>)
    requires Distinct(Firsts(writes))
    ensures forall i :: 0 <= i < |writes| ==> LastWriteTo(writes, i)
  {
    var names := Firsts(writes);
    forall i, j | 0 <= i < j < |writes|
      ensures writes[j].0 != writes[i].0
    {
      assert names[i] != names[j];
    }
  }

  lemma WrittenAreNames(writes: seq<(string, Page)>)
    ensures Written(writes) == set x | x in Firsts(writes)
  {
    var names := Firsts(writes);
    var keys := Written(writes);
    forall x | x in names
      ensures x in keys
    {
      var i :| 0 <= i < |names| && names[i] == x;
      assert writes[i].0 == x;
    }
    forall x | x in keys
      ensures x in names
    {
      var i :| 0 <= i < |writes| && writes[i].0 == x;
      assert names[i] == x;
    }
  }

  /**
   * A batch with a range writes `count` different files, sheet `f`'s page
   * under sheet `f`'s name: no page overwrites another. Files of an earlier
   * run that this one does not rename stay, so only an empty directory
   * ends up with exactly `count` files.
   */
  lemma RangedBatchKeepsEveryPage(before: map<string, Page>, lowHigh: (int, int), writes: seq<(string, Page)>)
    requires Firsts(writes) == FileNames(|writes|, Some(lowHigh))
    ensures |Written(writes)| == |writes|
    ensures forall i :: 0 <= i < |writes| ==> Files(before, writes)[writes[i].0] == writes[i].1
    ensures before == map[] ==> |Files(before, writes).Keys| == |writes|
  {
    FileNamesAt(|writes|, Some(lowHigh));
    BatchNamesDistinct(lowHigh, writes);
    DistinctNamesKeepEveryPage(before, writes);
  }

  lemma BatchNamesDistinct(lowHigh: (int, int), writes: seq<(string, Page)>)
    requires forall i :: 0 <= i < |writes| ==> writes[i].0 == MakeFilename(SheetNumber(i), Some(lowHigh))
    ensures Distinct(Firsts(writes))
  {
    var names := Firsts(writes);
    forall i, j | 0 <= i < j < |names|
      ensures names[i] != names[j]
    {
      FilenamesDiffer(SheetNumber(i), SheetNumber(j), lowHigh);
    }
  }

  /** Two sheet numbers of one ranged batch give two names. */
  lemma FilenamesDiffer(n: int, n': int, lowHigh: (int, int))
    requires n != n'
    ensures MakeFilename(n, Some(lowHigh)) != MakeFilename(n', Some(lowHigh))
  {
    if MakeFilename(n, Some(lowHigh)) == MakeFilename(n', Some(lowHigh)) {
      FilenameInjective(n, lowHigh, n', lowHigh);
    }
  }

  /**
   * A blank batch writes every page to the same file, so the directory
   * gains at most that one file, and it holds the last page.
   */
  lemma BlankBatchKeepsLastPage(before: map<string, Page>, writes: seq<(string, Page)>)
    requires writes != []
    requires Firsts(writes) == FileNames(|writes|, None)
    ensures Files(before, writes).Keys == before.Keys + {MakeFilename(1, None)}
    ensures Files(before, writes)[MakeFilename(1, None)] == writes[|writes| - 1].1
  {
    var name := MakeFilename(1, None);
    FileNamesAt(|writes|, None);
    forall i | 0 <= i < |writes|
      ensures writes[i].0 == name
    {
      assert writes[i].0 == Firsts(writes)[i] == MakeFilename(SheetNumber(i), None);
      BlankFilenameIgnoresNumber(SheetNumber(i), 1);
    }
    SameNameKeepsLast(before, writes, name);
  }

  /** Writes all to one name add only that name, holding the last write. */
  lemma SameNameKeepsLast(before: map<string, Page>, writes: seq<(string, Page)>, name: string)
    requires writes != []
    requires forall i :: 0 <= i < |writes| ==> writes[i].0 == name
    ensures Files(before, writes).Keys == before.Keys + {name}
    ensures Files(before, writes)[name] == writes[|writes| - 1].1
  {
    assert LastWriteTo(writes, |writes| - 1);
    assert writes[0].0 == name;
  }
}
