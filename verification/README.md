# Laborer ledger and labor report — a verified Dafny model

This project models the bookkeeping core of a small labor-management web app.

**The ledger.** The home page keeps a list of laborer records. Each record has:
- a daily rate;
- running totals of days worked (`totalDaily`), wages earned (`totalDuty`) and cash advanced (`totalAdvance`);
- the duty entries and advance entries behind those totals.

The user can add a laborer, record a duty (so many days on a date, worth rate × days), record an advance, or delete a laborer. A search box filters the table by name. Summary cards show the laborer count and the duty, advance and net totals. Every table row shows the laborer's net payable.

**The report.** A per-laborer report merges the duty and advance entries into one row per distinct date, in ascending date order. A side with no entry on a date shows a dash. Summary lines follow the table. The report is saved under the laborer's name, with whitespace runs replaced by underscores and `_labor_report.pdf` appended.

The model is functional: immutable datatypes over `seq`, pure functions, and lemmas.

- `seqs.dfy` (`Seqs`): order-preserving filtering, first-match search and duplicate-freedom. These model `Array.prototype.filter` and `find`.
- `strings.dfy` (`Strings`): the JavaScript string operations the core uses.
  - `trim` and `\s` share one whitespace class.
  - `toLowerCase`, `includes`, and `replace(/\s+/g, '_')`.
- `string_order.dfy` (`StringOrder`): the string order that `Array.prototype.sort` uses when it is given no comparator.
  - It is proved to be a strict total order.
  - Insertion sort over it is proved correct.
  - A set of distinct strings has exactly one strictly ascending arrangement.
- `ledger.dfy` (`Ledger`): the four page transitions, the search, the summary cards and the table rows.
  - The sum invariant: each total equals the sum over its entries.
  - Facts showing each operation touches only its target.
  - The effect of each operation on the summary.
- `report.dfy` (`Report`): the date merge, the report summary and the file name.

Money and day counts are `real`, so arithmetic is exact. Laborer ids are parameters of `AddLabor`; the page takes them from the clock.

## Model

| member | source | states |
|---|---|---|
| Ledger.NewLaborer | client/src/pages/HomePage.tsx:33-42 | A new record carries the given id, name and daily rate, zero daily, duty and advance totals and no entries, so its totals agree with its (empty) entries. |
| Ledger.AddLabor | client/src/pages/HomePage.tsx:32-43 | The new laborer is appended at the end with the given name, rate and id, zero totals and no entries. All earlier laborers stay as and where they were. Consistency of all records is preserved. Ids stay unique when the new id is fresh. |
| Ledger.AddDuty | client/src/pages/HomePage.tsx:50-63 | Each laborer with the id gets `{date, daily, rate*daily}` appended to its duty entries. Its `totalDaily` rises by `daily` and its `totalDuty` by `rate*daily`. Its name, rate, advance total and advances are unchanged. Other laborers, the length and the ids are unchanged. An unknown id changes nothing. |
| Ledger.AddAdvance | client/src/pages/HomePage.tsx:71-82 | Each laborer with the id gets `{date, amount}` appended to its advances, and its `totalAdvance` rises by `amount`. Its duty side, name and rate are unchanged. Other laborers, the length and the ids are unchanged. An unknown id changes nothing. |
| Ledger.DeleteLabor | client/src/pages/HomePage.tsx:90-92 | The result is a subsequence of the list. Every survivor has a different id. Every laborer with a different id survives as often as it occurred. The id is gone. Consistency is preserved. |
| Ledger.Search | client/src/pages/HomePage.tsx:100-105 | An all-whitespace query returns the whole list. Otherwise the result keeps, in order and with multiplicity, exactly the laborers whose lower-cased name contains the lower-cased, untrimmed query. The result is always a subsequence. |
| Ledger.Summarize | client/src/pages/HomePage.tsx:107-110 | The laborer count is the list length. The duty and advance cards are the `reduce` sums of `totalDuty` and `totalAdvance` over every laborer, and net payable is their difference. |
| Ledger.DutyTotal | client/src/pages/HomePage.tsx:108 | The duty card's `reduce`: every laborer's `totalDuty` added from first to last, starting at 0. |
| Ledger.AdvanceTotal | client/src/pages/HomePage.tsx:109 | The advance card's `reduce`: every laborer's `totalAdvance` added from first to last, starting at 0. |
| Ledger.DutyTotalFront | client/src/pages/HomePage.tsx:108 | The duty `reduce`, which adds from the first laborer to the last, equals the first laborer's duty plus the total of the rest. |
| Ledger.AdvanceTotalFront | client/src/pages/HomePage.tsx:109 | The same for the advance `reduce`. |
| Ledger.DutyTotalAppend | client/src/pages/HomePage.tsx:108-109 | Appending a laborer raises the duty and advance sums by exactly that laborer's totals. |
| Ledger.ToTableRow | client/src/pages/HomePage.tsx:112-122 | A row copies the laborer's fields, and its net payable is `totalDuty - totalAdvance`. |
| Ledger.TableData | client/src/pages/HomePage.tsx:112-122 | `laborTableData` has one row per shown laborer, and row i is the table row of laborer i. |
| Ledger.View | client/src/pages/HomePage.tsx:100-122 | The cards count every laborer and show the duty and advance sums over every laborer, not only the shown ones. Row i of the table is the table row of the i-th search result, and each row's net is its duty minus its advance. |
| Ledger.AddDutyPreservesConsistency | client/src/pages/HomePage.tsx:50-60 | Adding a duty keeps every laborer's three totals equal to the sums over its entries. |
| Ledger.AddAdvancePreservesConsistency | client/src/pages/HomePage.tsx:71-79 | Adding an advance keeps every laborer's totals equal to the sums over its entries. |
| Ledger.RunPreservesConsistency | client/src/pages/HomePage.tsx:32-92 | Any sequence of add-labor, add-duty, add-advance and delete actions applied to a consistent list yields a consistent list. |
| Ledger.DeleteLaborAppend | client/src/pages/HomePage.tsx:92 | Deleting works piecewise over a split list, so survivors keep their relative order. |
| Ledger.DeleteUnknownId | client/src/pages/HomePage.tsx:92 | Deleting an id nobody has returns the list unchanged. |
| Ledger.DeleteIdempotent | client/src/pages/HomePage.tsx:92 | Deleting the same id twice is the same as deleting it once. |
| Ledger.AddThenDelete | client/src/pages/HomePage.tsx:32-92 | Deleting a laborer just added under a fresh id gives back the original list. |
| Ledger.DeleteSummary | client/src/pages/HomePage.tsx:90-110 | Delete lowers the duty and advance totals by exactly those of the removed laborers, and lowers the count by their number. |
| Ledger.AddDutySnoc | client/src/pages/HomePage.tsx:51-63 | Adding a duty to a list extended by one laborer is adding it to the prefix and updating that laborer only if its id matches. |
| Ledger.AddAdvanceSnoc | client/src/pages/HomePage.tsx:72-82 | The same piecewise behaviour for adding an advance. |
| Ledger.AddDutySummary | client/src/pages/HomePage.tsx:50-110 | Adding a duty raises the summary duty total by rate × days for each laborer with that id. The advance total is unchanged. |
| Ledger.AddAdvanceSummary | client/src/pages/HomePage.tsx:71-110 | Adding an advance raises the summary advance total by the amount once per laborer with that id. The duty total is unchanged. |
| Ledger.AddDutySummaryUnique | client/src/pages/HomePage.tsx:50-108 | With unique ids, a duty for a present laborer raises the summary duty total by exactly that laborer's rate × days. |
| Ledger.AddAdvanceSummaryUnique | client/src/pages/HomePage.tsx:71-109 | With unique ids, an advance for a present laborer raises the summary advance total by exactly the amount. |
| Ledger.MatchingUnique | client/src/pages/HomePage.tsx:51-52 | With unique ids, the only laborer the `labor.id === laborId` test selects is the one holding that id. |
| Ledger.SearchCaseInsensitive | client/src/pages/HomePage.tsx:100-105 | Two queries that lower-case alike give the same search result. |
| Ledger.SearchAppend | client/src/pages/HomePage.tsx:101-104 | A search, with a blank query or not, works piecewise over a split list, so it keeps list order. |
| Ledger.SummaryNetIsRowNetTotal | client/src/pages/HomePage.tsx:107-118 | The cards' net payable equals the sum of the net payable column over all laborers. |
| Ledger.RowNetFromEntries | client/src/pages/HomePage.tsx:118 | For a consistent laborer, the row's net payable is the sum of duty amounts minus the sum of advances. |
| Ledger.SummaryIgnoresSearch | client/src/pages/HomePage.tsx:100-110 | The summary cards are the same whatever the search query. |
| Ledger.SeedLaborersInconsistent | client/src/pages/HomePage.tsx:26-30 | None of the three demonstration records satisfies the sum invariant: they have totals but no entries. |
| Ledger.AddDutyExample | client/src/pages/HomePage.tsx:50-60 | 1.5 days at a rate of 800 is recorded as an entry worth 1200 and raises `totalDuty` to 1200. |
| Seqs.Filter | client/src/pages/HomePage.tsx:92 | `filter` keeps, with their multiplicity, exactly the elements satisfying the test. |
| Seqs.FilterSubseq | client/src/pages/HomePage.tsx:92 | What `filter` keeps stays in its original relative order (a subsequence of the input). |
| Seqs.FirstIndex | client/src/lib/pdfGenerator.ts:43-44 | `find` locates the first match. There is no match exactly when the element is absent. |
| Strings.Trim | client/src/pages/HomePage.tsx:101 | `trim` is empty exactly for all-whitespace input. Otherwise it neither starts nor ends with whitespace, and it is the piece of the input with only whitespace around it. |
| Strings.ToLower | client/src/pages/HomePage.tsx:103 | Lower-casing keeps the length and maps each character on its own. |
| Strings.ToLowerIdempotent | client/src/pages/HomePage.tsx:103 | Lower-casing twice is lower-casing once. |
| Strings.ToLowerKeepsSpace | client/src/pages/HomePage.tsx:101-103 | Lower-casing neither creates nor removes whitespace. |
| Strings.IsSpace | client/src/pages/HomePage.tsx:101 | The whitespace class of `trim` and of `\s`: tab, line feed, line tabulation, form feed, carriage return, space, no-break space, the other space separators, the line and paragraph separators and the byte order mark. |
| Strings.Contains | client/src/pages/HomePage.tsx:103 | `includes`: the needle is a prefix of the string or of one of its suffixes, and the empty needle is always contained. |
| Strings.ContainsIff | client/src/pages/HomePage.tsx:103 | `includes` holds exactly when the needle occurs at some index of the string. |
| Strings.CollapseSpaces | client/src/lib/pdfGenerator.ts:113 | `replace(/\s+/g, '_')` never makes a string longer. What it computes is stated by the four lemmas below. |
| Strings.CollapseHasNoSpace | client/src/lib/pdfGenerator.ts:113 | `replace(/\s+/g, '_')` leaves no whitespace. |
| Strings.CollapseNoSpace | client/src/lib/pdfGenerator.ts:113 | A string without whitespace is left unchanged. |
| Strings.CollapseRun | client/src/lib/pdfGenerator.ts:113 | A whitespace run becomes exactly one underscore. |
| Strings.CollapseAppend | client/src/lib/pdfGenerator.ts:113 | The rewrite is compositional at any split point that does not cut a whitespace run. |
| StringOrder.Less | client/src/lib/pdfGenerator.ts:40 | The order of `sort()` without a comparator: character by character, with a proper prefix before its extensions. |
| StringOrder.LessIrreflexive | client/src/lib/pdfGenerator.ts:40 | The default sort order is irreflexive. |
| StringOrder.LessTransitive | client/src/lib/pdfGenerator.ts:40 | The default sort order is transitive. |
| StringOrder.LessTotal | client/src/lib/pdfGenerator.ts:40 | Any two different strings are ordered one way or the other. |
| StringOrder.Sort | client/src/lib/pdfGenerator.ts:40 | `sort()` returns an ascending permutation of its input. |
| StringOrder.SortDistinct | client/src/lib/pdfGenerator.ts:40 | Sorting distinct strings gives a strictly ascending sequence. |
| StringOrder.StrictlyAscendingUnique | client/src/lib/pdfGenerator.ts:40 | Two strictly ascending sequences with the same elements are equal. |
| Report.AddDates | client/src/lib/pdfGenerator.ts:36-38 | Adding dates to an insertion-ordered set keeps it duplicate-free and keeps the earlier dates as a prefix. It then holds exactly the old and the new dates. |
| Report.DistinctDates | client/src/lib/pdfGenerator.ts:36-40 | `Array.from(allDates)` is duplicate-free and holds exactly the duty dates and advance dates. |
| Report.SortedDates | client/src/lib/pdfGenerator.ts:40 | `Array.from(allDates).sort()` is strictly ascending and holds exactly the duty dates and advance dates. |
| Report.MergeRow | client/src/lib/pdfGenerator.ts:43-51 | The row's `daily` and `rate` are those of the first duty entry on the date, or dashes exactly when there is none. Its `advance` is the first advance's amount, or a dash exactly when there is none. |
| Report.MergeRows | client/src/lib/pdfGenerator.ts:42-52 | There is one row per sorted date, in order. |
| Report.Generate | client/src/lib/pdfGenerator.ts:94-99 | The report carries the laborer's name, rate, merged rows and totals. Its net payable is total duty minus total advance. |
| Report.FileName | client/src/lib/pdfGenerator.ts:113 | The file name is the name with each whitespace run rewritten (`Strings.CollapseSpaces`) followed by `_labor_report.pdf`. The part before the suffix has no whitespace, and the name is no longer than the original name plus the suffix. |
| Report.RowsStrictlyAscending | client/src/lib/pdfGenerator.ts:36-42 | Row dates are strictly ascending in string order, so no date repeats. |
| Report.RowDatesCover | client/src/lib/pdfGenerator.ts:36-52 | The set of row dates is the union of the duty dates and the advance dates. |
| Report.RowCount | client/src/lib/pdfGenerator.ts:36-52 | The number of rows is the number of distinct dates in that union. |
| Report.RowOrderCanonical | client/src/lib/pdfGenerator.ts:36-42 | The row dates are the unique strictly ascending listing of the entry dates, whatever order the entries were made in. |
| Report.EveryRowHasEntry | client/src/lib/pdfGenerator.ts:36-50 | No row is all dashes: each has a duty value or an advance value. |
| Report.SameDateRows | client/src/lib/pdfGenerator.ts:43-50 | Two duties on one date give one row, and that row shows the first duty. |
| Report.SameDateDutiesHidden | client/src/lib/pdfGenerator.ts:43-97 | In that case the rate column sums to the printed total duty minus the second entry's amount. Row amounts need not add up to the totals. |
| Report.MergeExampleDates | client/src/lib/pdfGenerator.ts:36-40 | Duties dated d5 then d1 and an advance dated d3, with d1 < d3 < d5, give the report dates d1, d3, d5. |
| Report.MergeExample | client/src/lib/pdfGenerator.ts:36-52 | Those entries give three rows, each with dashes on the side that has no entry. |
| Report.ReportNetMatchesTable | client/src/lib/pdfGenerator.ts:94 | The report's net payable equals the ledger table row's net payable for the same laborer. |
| Report.ReportNetFromEntries | client/src/lib/pdfGenerator.ts:94 | For a consistent laborer, the report's net payable is the sum of duty amounts minus the sum of advances. |
| Report.FileNamePlain | client/src/lib/pdfGenerator.ts:113 | A name without whitespace is used as it is, followed by the suffix. |
| Report.FileNameJoin | client/src/lib/pdfGenerator.ts:113 | Two words joined by any whitespace run become the two words joined by one underscore. |

## Left out

- **User interface and environment.** Rendering, dialogs, toasts, the theme toggle and the search box widget are left out; they are presentation.
- **Ids.** `Date.now()` ids are a parameter of `AddLabor`.
- **PDF layout.** Fonts, colours, positions and the jsPDF/autoTable calls are left out. So are `previewLaborPDF`'s blob URL and window, and the `₹` prefix and number-to-text formatting of cells. Report cells carry the numbers instead.
- **Input parsing.** `parseFloat` in the add dialogs and the dialogs' non-empty guards are left out; the operations take numbers.
- **Numbers.** IEEE double rounding is not modelled. Money and days are exact reals, and the source only adds, subtracts and multiplies them.
- **Other components.** The server (`server/routes.ts`, `server/storage.ts`), the database schema, the image cropping in the edit dialog and the presentation components are not part of this model.
- **Rate edits.** Recomputing duty amounts after a rate edit is not in the modelled code.
- **Seed records.** The three demonstration records the page starts with (HomePage.tsx lines 27-29) break the sum invariant. `Ledger.SeedLaborersInconsistent` shows this. The invariant lemmas therefore take a consistent starting list as a hypothesis rather than starting from the seeds.
- Ledger.AddAdvance: takes the advance's date as a string. In the page as written, the only caller of `handleAddAdvance` is the advance dialog, whose `onAdd` passes two arguments (`AddAdvanceDialog.tsx` lines 16 and 27). So every advance the page records has an undefined date, and the report would then add `undefined` to its date set, which `sort()` places after every string. The model assumes every advance carries a date string. `Report.RowsStrictlyAscending`, `Report.RowDatesCover` and `Report.RowOrderCanonical` describe the report only under that assumption.
- Strings.ToLower: maps only ASCII `A`-`Z` to lower case. `toLowerCase` also lower-cases non-ASCII letters, whose case mapping (some of it context-dependent or length-changing) is not modelled. The search lemmas inherit this.
- StringOrder.Less: compares Unicode scalar values. JavaScript compares UTF-16 code units, which agree on the Basic Multilingual Plane and may differ for strings with characters beyond it. Report dates are ISO date strings, which are ASCII.
- Strings.CollapseSpaces: its own contract only bounds the length. What it computes is stated by `CollapseHasNoSpace`, `CollapseNoSpace`, `CollapseRun` and `CollapseAppend`.
