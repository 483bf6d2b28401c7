/**
 The per-laborer report: the duty and advance entries of one laborer merged
 into one table row per distinct date, in ascending date order, followed by
 the summary lines, and the name the report is saved under.
 */
module Report {
  import opened Seqs
  import opened StringOrder
  import Strings
  import opened Ledger

  /** A table cell: a number, or the dash shown when no entry exists. */
  datatype Cell = Dash | Value(v: real)

  /** One report row: a date and what the laborer earned and was advanced on it. */
  datatype Row = Row(date: string, daily: Cell, rate: Cell, advance: Cell)

  /** The summary lines under the table. */
  datatype ReportSummary = ReportSummary(totalDaily: real, totalDuty: real, totalAdvance: real, netPayable: real)

  /** The content of the report: header fields, rows and summary. */
  datatype LaborReport = LaborReport(name: string, dailyRate: real, rows: seq<Row>, summary: ReportSummary)

  /** The dates of the duty entries, in entry order. */
  function DutyDates(es: seq<DutyEntry>): seq<string>
  {
    Map(es, (e: DutyEntry) => e.date)
  }

  /** The dates of the advance entries, in entry order. */
  function AdvanceDates(es: seq<AdvanceEntry>): seq<string>
  {
    Map(es, (e: AdvanceEntry) => e.date)
  }

  /**
   `ds.forEach(d => allDates.add(d))` on a set whose iteration order is
   `seen`: a date not yet present is added at the end, a present one is
   ignored. The result is duplicate-free, keeps `seen` as its prefix and
   holds exactly the dates of `seen` and `ds`.
   */
  function AddDates(seen: seq<string>, ds: seq<string>): (r: seq<string>)
    requires NoDups(seen)
    ensures NoDups(r)
    ensures |seen| <= |r| && r[..|seen|] == seen
    ensures forall d :: d in r <==> d in seen || d in ds
    decreases |ds|
  {
    if ds == [] then seen
    else if ds[0] in seen then AddDates(seen, ds[1..])
    else
      var r := AddDates(seen + [ds[0]], ds[1..]);
      assert r[..|seen|] == (seen + [ds[0]])[..|seen|];
      r
  }

  /** `Array.from(allDates)`: every duty date and then every advance date, each once, in first-seen order. */
  function DistinctDates(l: Laborer): (r: seq<string>)
    ensures NoDups(r)
    ensures forall d :: d in r <==> d in DutyDates(l.dutyEntries) || d in AdvanceDates(l.advanceEntries)
  {
    AddDates(AddDates([], DutyDates(l.dutyEntries)), AdvanceDates(l.advanceEntries))
  }

  /** `Array.from(allDates).sort()`. */
  function SortedDates(l: Laborer): (r: seq<string>)
    ensures StrictlyAscending(r)
    ensures forall d :: d in r <==> d in DutyDates(l.dutyEntries) || d in AdvanceDates(l.advanceEntries)
  {
    var distinct := DistinctDates(l);
    SortDistinct(distinct);
    forall d
      ensures d in Sort(distinct) <==> d in distinct
    {
      assert d in Sort(distinct) <==> d in multiset(Sort(distinct));
    }
    Sort(distinct)
  }

  /**
   The row for `date`: the daily quantity and amount of the first duty entry
   on that date and the amount of the first advance entry on it, with a dash
   for a side that has no entry on that date.
   */
  function MergeRow(l: Laborer, date: string): (row: Row)
    ensures row.date == date
    ensures row.daily.Dash? <==> forall k :: 0 <= k < |l.dutyEntries| ==> l.dutyEntries[k].date != date
    ensures row.rate.Dash? <==> row.daily.Dash?
    ensures forall k :: FirstAt(DutyDates(l.dutyEntries), date, k) ==>
      row.daily == Value(l.dutyEntries[k].daily) && row.rate == Value(l.dutyEntries[k].amount)
    ensures row.advance.Dash? <==> forall k :: 0 <= k < |l.advanceEntries| ==> l.advanceEntries[k].date != date
    ensures forall k :: FirstAt(AdvanceDates(l.advanceEntries), date, k) ==> row.advance == Value(l.advanceEntries[k].amount)
  {
    var duty := FirstIndex(DutyDates(l.dutyEntries), date);
    var advance := FirstIndex(AdvanceDates(l.advanceEntries), date);
    Row(date,
        if duty.Some? then Value(l.dutyEntries[duty.value].daily) else Dash,
        if duty.Some? then Value(l.dutyEntries[duty.value].amount) else Dash,
        if advance.Some? then Value(l.advanceEntries[advance.value].amount) else Dash)
  }

  /** The table body: one merged row per sorted date. */
  function MergeRows(l: Laborer): (rows: seq<Row>)
    ensures |rows| == |SortedDates(l)|
    ensures forall i :: 0 <= i < |rows| ==> rows[i] == MergeRow(l, SortedDates(l)[i])
  {
    var dates := SortedDates(l);
    seq(|dates|, i requires 0 <= i < |dates| => MergeRow(l, dates[i]))
  }

  /**
   `generateLaborPDF` without the layout: the header fields, the merged rows
   and the summary, whose net payable is the duty total less the advance total.
   */
  function Generate(l: Laborer): (rep: LaborReport)
    ensures rep.name == l.name && rep.dailyRate == l.dailyRate
    ensures rep.rows == MergeRows(l)
    ensures rep.summary.totalDaily == l.totalDaily
    ensures rep.summary.totalDuty == l.totalDuty && rep.summary.totalAdvance == l.totalAdvance
    ensures rep.summary.netPayable == rep.summary.totalDuty - rep.summary.totalAdvance
  {
    LaborReport(l.name, l.dailyRate, MergeRows(l),
                ReportSummary(l.totalDaily, l.totalDuty, l.totalAdvance, l.totalDuty - l.totalAdvance))
  }

  /** What `downloadLaborPDF` appends to the rewritten name. */
  const FileSuffix: string := "_labor_report.pdf"

  /**
   The download name: the laborer's name with each whitespace run replaced
   by one underscore, then the suffix. The part before the suffix holds no
   whitespace.
   */
  function FileName(name: string): (f: string)
    ensures f == Strings.CollapseSpaces(name) + FileSuffix
    ensures |FileSuffix| <= |f| && f[|f| - |FileSuffix|..] == FileSuffix
    ensures Strings.NoSpace(f[..|f| - |FileSuffix|])
    ensures |f| <= |name| + |FileSuffix|
  {
    var prefix := Strings.CollapseSpaces(name);
    Strings.CollapseHasNoSpace(name);
    assert (prefix + FileSuffix)[..|prefix|] == prefix;
    prefix + FileSuffix
  }

  // ---------------------------------------------------------------------------
  // Properties of the rows

  /** The dates of a list of rows, in row order. */
  function RowDates(rows: seq<Row>): seq<string>
  {
    Map(rows, (row: Row) => row.date)
  }

  /** The row dates are the sorted dates. */
  lemma RowDatesSorted(l: Laborer)
    ensures RowDates(MergeRows(l)) == SortedDates(l)
  {
  }

  /** The row dates are strictly ascending in string order, so no date has two rows. */
  lemma RowsStrictlyAscending(l: Laborer)
    ensures StrictlyAscending(RowDates(MergeRows(l)))
  {
    RowDatesSorted(l);
  }

  /** A date has a row exactly when some duty entry or some advance entry carries it. */
  lemma RowDatesCover(l: Laborer)
    ensures Elems(RowDates(MergeRows(l))) == Elems(DutyDates(l.dutyEntries)) + Elems(AdvanceDates(l.advanceEntries))
  {
    RowDatesSorted(l);
  }

  /** There are exactly as many rows as distinct dates among all entries. */
  lemma RowCount(l: Laborer)
    ensures |MergeRows(l)| == |Elems(DutyDates(l.dutyEntries)) + Elems(AdvanceDates(l.advanceEntries))|
  {
    RowsStrictlyAscending(l);
    RowDatesCover(l);
    var dates := RowDates(MergeRows(l));
    forall i, j | 0 <= i < j < |dates|
      ensures dates[i] != dates[j]
    {
      LessIrreflexive(dates[i]);
    }
    NoDupsCard(dates);
  }

  /**
   The row order is the ascending enumeration of the dates and nothing else:
   any strictly ascending list of exactly the entry dates equals the row
   dates, whatever order the entries were made in.
   */
  lemma RowOrderCanonical(l: Laborer, dates: seq<string>)
    requires StrictlyAscending(dates)
    requires Elems(dates) == Elems(DutyDates(l.dutyEntries)) + Elems(AdvanceDates(l.advanceEntries))
    ensures RowDates(MergeRows(l)) == dates
  {
    RowsStrictlyAscending(l);
    RowDatesCover(l);
    StrictlyAscendingUnique(RowDates(MergeRows(l)), dates);
  }

  /** No row is all dashes: every row has a duty entry or an advance entry behind it. */
  lemma EveryRowHasEntry(l: Laborer)
    ensures forall i :: 0 <= i < |MergeRows(l)| ==> MergeRows(l)[i].daily.Value? || MergeRows(l)[i].advance.Value?
  {
    RowDatesCover(l);
    var rows := MergeRows(l);
    forall i | 0 <= i < |rows|
      ensures rows[i].daily.Value? || rows[i].advance.Value?
    {
      var d := rows[i].date;
      assert d == RowDates(rows)[i];
      assert d in Elems(RowDates(rows));
      if d in DutyDates(l.dutyEntries) {
        var k :| 0 <= k < |l.dutyEntries| && DutyDates(l.dutyEntries)[k] == d;
        assert l.dutyEntries[k].date == d;
      } else {
        var k :| 0 <= k < |l.advanceEntries| && AdvanceDates(l.advanceEntries)[k] == d;
        assert l.advanceEntries[k].date == d;
      }
    }
  }

  /** The sum of a column of cells, a dash counting as nothing. */
  function CellTotal(cells: seq<Cell>): real
  {
    if cells == [] then 0.0
    else CellTotal(cells[..|cells| - 1]) + (if cells[|cells| - 1].Value? then cells[|cells| - 1].v else 0.0)
  }

  /** The rate column of a list of rows. */
  function RateColumn(rows: seq<Row>): seq<Cell>
  {
    Map(rows, (row: Row) => row.rate)
  }

  /**
   Only the first duty entry of a date reaches the report: a laborer with two
   duties on one date and nothing else gets a single row, showing the first.
   */
  lemma SameDateRows(l: Laborer, date: string, first: DutyEntry, second: DutyEntry)
    requires first.date == date && second.date == date
    requires l.dutyEntries == [first, second] && l.advanceEntries == []
    ensures MergeRows(l) == [Row(date, Value(first.daily), Value(first.amount), Dash)]
  {
    assert DutyDates(l.dutyEntries) == [date, date];
    SameDateDates(l, date);
    SameDateCell(l, date, first, second);
    var rows := MergeRows(l);
    assert |rows| == 1 && rows[0] == MergeRow(l, date);
  }

  /** The row of that date shows the first duty and no advance. */
  lemma SameDateCell(l: Laborer, date: string, first: DutyEntry, second: DutyEntry)
    requires first.date == date && second.date == date
    requires l.dutyEntries == [first, second] && l.advanceEntries == []
    ensures MergeRow(l, date) == Row(date, Value(first.daily), Value(first.amount), Dash)
  {
    assert FirstAt(DutyDates(l.dutyEntries), date, 0);
  }

  /** A laborer whose only entries are two duties on `date` has one report date. */
  lemma SameDateDates(l: Laborer, date: string)
    requires DutyDates(l.dutyEntries) == [date, date] && l.advanceEntries == []
    ensures SortedDates(l) == [date]
  {
    assert Elems([date]) == Elems(DutyDates(l.dutyEntries)) + Elems(AdvanceDates(l.advanceEntries));
    RowOrderCanonical(l, [date]);
    RowDatesSorted(l);
  }

  /**
   So the rate column of such a report falls short of the duty total printed
   below it by the second entry's amount, although the totals are consistent.
   */
  lemma SameDateDutiesHidden(l: Laborer, date: string, first: DutyEntry, second: DutyEntry)
    requires first.date == date && second.date == date
    requires l.dutyEntries == [first, second] && l.advanceEntries == []
    requires Consistent(l)
    ensures CellTotal(RateColumn(MergeRows(l))) == Generate(l).summary.totalDuty - second.amount
  {
    SameDateRows(l, date, first, second);
    var cells := [Value(first.amount)];
    assert RateColumn(MergeRows(l)) == cells;
    assert cells[..0] == [];
    assert CellTotal(cells) == first.amount;
    assert [first, second][..1] == [first];
    assert [first][..0] == [];
    assert SumDutyAmount([first]) == first.amount;
  }

  /**
   Two duties on dates `d1` and `d5` entered in the order `d5`, `d1` and an
   advance on `d3`, where `d1 < d3 < d5`: the report dates are `d1`, `d3`,
   `d5`.
   */
  lemma MergeExampleDates(l: Laborer, d1: string, d3: string, d5: string, duty1: DutyEntry, duty5: DutyEntry, advance3: AdvanceEntry)
    requires Less(d1, d3) && Less(d3, d5)
    requires duty1.date == d1 && duty5.date == d5 && advance3.date == d3
    requires l.dutyEntries == [duty5, duty1] && l.advanceEntries == [advance3]
    ensures SortedDates(l) == [d1, d3, d5]
  {
    LessTransitive(d1, d3, d5);
    assert DutyDates(l.dutyEntries) == [d5, d1];
    assert AdvanceDates(l.advanceEntries) == [d3];
    assert Elems([d1, d3, d5]) == Elems([d5, d1]) + Elems([d3]);
    RowOrderCanonical(l, [d1, d3, d5]);
    RowDatesSorted(l);
  }

  /** A report with three dates has the three rows of those dates, in order. */
  lemma RowsOfThreeDates(l: Laborer, a: string, b: string, c: string)
    requires SortedDates(l) == [a, b, c]
    ensures MergeRows(l) == [MergeRow(l, a), MergeRow(l, b), MergeRow(l, c)]
  {
    var rows := MergeRows(l);
    SeqOfThree(rows, MergeRow(l, a), MergeRow(l, b), MergeRow(l, c));
  }

  /** The rows for the dates of `MergeExampleDates`, each with a dash on the side that has no entry. */
  lemma MergeExample(l: Laborer, d1: string, d3: string, d5: string, duty1: DutyEntry, duty5: DutyEntry, advance3: AdvanceEntry)
    requires Less(d1, d3) && Less(d3, d5)
    requires duty1.date == d1 && duty5.date == d5 && advance3.date == d3
    requires l.dutyEntries == [duty5, duty1] && l.advanceEntries == [advance3]
    ensures MergeRows(l) == [Row(d1, Value(duty1.daily), Value(duty1.amount), Dash),
                             Row(d3, Dash, Dash, Value(advance3.amount)),
                             Row(d5, Value(duty5.daily), Value(duty5.amount), Dash)]
  {
    MergeExampleDates(l, d1, d3, d5, duty1, duty5, advance3);
    RowsOfThreeDates(l, d1, d3, d5);
    MergeExampleCells(l, d1, d3, d5, duty1, duty5, advance3);
  }

  /** The row `MergeRow` builds for each date of `MergeExample`. */
  lemma MergeExampleCells(l: Laborer, d1: string, d3: string, d5: string, duty1: DutyEntry, duty5: DutyEntry, advance3: AdvanceEntry)
    requires Less(d1, d3) && Less(d3, d5)
    requires duty1.date == d1 && duty5.date == d5 && advance3.date == d3
    requires l.dutyEntries == [duty5, duty1] && l.advanceEntries == [advance3]
    ensures MergeRow(l, d1) == Row(d1, Value(duty1.daily), Value(duty1.amount), Dash)
    ensures MergeRow(l, d3) == Row(d3, Dash, Dash, Value(advance3.amount))
    ensures MergeRow(l, d5) == Row(d5, Value(duty5.daily), Value(duty5.amount), Dash)
  {
    LessTransitive(d1, d3, d5);
    LessIrreflexive(d1);
    LessIrreflexive(d3);
    assert FirstAt(DutyDates(l.dutyEntries), d1, 1);
    assert FirstAt(DutyDates(l.dutyEntries), d5, 0);
    assert FirstAt(AdvanceDates(l.advanceEntries), d3, 0);
  }

  /** The report's net payable is the one the ledger table shows for the same laborer. */
  lemma ReportNetMatchesTable(l: Laborer)
    ensures Generate(l).summary.netPayable == ToTableRow(l).netPayable
  {
  }

  /** For a consistent laborer the report's net payable is earned duty minus advances paid. */
  lemma ReportNetFromEntries(l: Laborer)
    requires Consistent(l)
    ensures Generate(l).summary.netPayable == SumDutyAmount(l.dutyEntries) - SumAdvanceAmount(l.advanceEntries)
  {
  }

  // ---------------------------------------------------------------------------
  // Properties of the file name

  /** A name without whitespace is used as it is. */
  lemma FileNamePlain(name: string)
    requires Strings.NoSpace(name)
    ensures FileName(name) == name + FileSuffix
  {
    Strings.CollapseNoSpace(name);
  }

  /** Two names joined by a whitespace run become the two names joined by one underscore. */
  lemma FileNameJoin(first: string, gap: string, last: string)
    requires Strings.NoSpace(first) && Strings.NoSpace(last)
    requires gap != [] && Strings.AllSpace(gap)
    ensures FileName(first + gap + last) == first + "_" + last + FileSuffix
  {
    Strings.CollapseAppend(first, gap);
    Strings.CollapseAppend(first + gap, last);
    Strings.CollapseNoSpace(first);
    Strings.CollapseNoSpace(last);
    Strings.CollapseRun(gap);
  }
}
