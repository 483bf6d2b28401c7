/**
 The laborer ledger kept by the home page: a list of laborer records, each
 with a daily rate, running totals and the duty and advance entries behind
 them. Adding a laborer, adding a duty or an advance entry and deleting a
 laborer are pure transitions from one list to the next; the search box
 selects the rows shown; the summary cards and the per-row net payable are
 derived from the list.
 */
module Ledger {
  import opened Seqs
  import Strings

  /** Work on one date: `daily` days (fractional or overtime) worth `amount`. */
  datatype DutyEntry = DutyEntry(date: string, daily: real, amount: real)

  /** Cash paid ahead of settlement on one date. */
  datatype AdvanceEntry = AdvanceEntry(date: string, amount: real)

  datatype Laborer = Laborer(
    id: string,
    name: string,
    dailyRate: real,
    totalDaily: real,
    totalDuty: real,
    totalAdvance: real,
    dutyEntries: seq<DutyEntry>,
    advanceEntries: seq<AdvanceEntry>)

  /** Sum of the `daily` quantities of duty entries. */
  function SumDaily(es: seq<DutyEntry>): real
  {
    if es == [] then 0.0 else SumDaily(es[..|es| - 1]) + es[|es| - 1].daily
  }

  /** Sum of the amounts of duty entries. */
  function SumDutyAmount(es: seq<DutyEntry>): real
  {
    if es == [] then 0.0 else SumDutyAmount(es[..|es| - 1]) + es[|es| - 1].amount
  }

  /** Sum of the amounts of advance entries. */
  function SumAdvanceAmount(es: seq<AdvanceEntry>): real
  {
    if es == [] then 0.0 else SumAdvanceAmount(es[..|es| - 1]) + es[|es| - 1].amount
  }

  /** The running totals of `l` agree with the entries stored in it. */
  predicate Consistent(l: Laborer)
  {
    && l.totalDaily == SumDaily(l.dutyEntries)
    && l.totalDuty == SumDutyAmount(l.dutyEntries)
    && l.totalAdvance == SumAdvanceAmount(l.advanceEntries)
  }

  /** Every laborer of the list is consistent. */
  predicate AllConsistent(ls: seq<Laborer>)
  {
    forall l :: l in ls ==> Consistent(l)
  }

  /** No two laborers of the list share an id. */
  predicate UniqueIds(ls: seq<Laborer>)
  {
    forall i, j :: 0 <= i < j < |ls| ==> ls[i].id != ls[j].id
  }

  /** The ids of the list, in order. */
  function Ids(ls: seq<Laborer>): seq<string>
  {
    Map(ls, (l: Laborer) => l.id)
  }

  // ---------------------------------------------------------------------------
  // Adding a laborer

  /** A laborer as the add form creates it: no entries and all totals zero. */
  function NewLaborer(id: string, name: string, dailyRate: real): (l: Laborer)
    ensures l.id == id && l.name == name && l.dailyRate == dailyRate
    ensures l.totalDaily == 0.0 && l.totalDuty == 0.0 && l.totalAdvance == 0.0
    ensures l.dutyEntries == [] && l.advanceEntries == []
    ensures Consistent(l)
  {
    Laborer(id, name, dailyRate, 0.0, 0.0, 0.0, [], [])
  }

  /**
   `handleAddLabor`: the new laborer is appended at the end with zero totals
   and no entries, and every existing laborer stays where and as it was. The
   id is a parameter (the page takes it from the clock).
   */
  function AddLabor(ls: seq<Laborer>, id: string, name: string, dailyRate: real): (r: seq<Laborer>)
    ensures |r| == |ls| + 1 && r[..|ls|] == ls
    ensures var l := r[|ls|];
            && l.id == id && l.name == name && l.dailyRate == dailyRate
            && l.totalDaily == 0.0 && l.totalDuty == 0.0 && l.totalAdvance == 0.0
            && l.dutyEntries == [] && l.advanceEntries == []
    ensures AllConsistent(ls) ==> AllConsistent(r)
    ensures UniqueIds(ls) && id !in Ids(ls) ==> UniqueIds(r)
  {
    ls + [NewLaborer(id, name, dailyRate)]
  }

  // ---------------------------------------------------------------------------
  // Adding a duty entry

  /** One laborer after a duty of `daily` days on `date`, valued at its rate. */
  function WithDuty(l: Laborer, daily: real, date: string): (r: Laborer)
    ensures r.dutyEntries == l.dutyEntries + [DutyEntry(date, daily, l.dailyRate * daily)]
    ensures r.totalDaily == l.totalDaily + daily && r.totalDuty == l.totalDuty + l.dailyRate * daily
    ensures r.id == l.id && r.name == l.name && r.dailyRate == l.dailyRate
    ensures r.totalAdvance == l.totalAdvance && r.advanceEntries == l.advanceEntries
  {
    l.(totalDaily := l.totalDaily + daily,
       totalDuty := l.totalDuty + l.dailyRate * daily,
       dutyEntries := l.dutyEntries + [DutyEntry(date, daily, l.dailyRate * daily)])
  }

  /**
   `handleAddDuty`: every laborer whose id is `id` gets the entry
   `{date, daily, amount = dailyRate * daily}` appended and its daily and duty
   totals raised by `daily` and by the amount; its name, rate and advance side
   are untouched. Every other laborer, the length and the order are unchanged.
   */
  function AddDuty(ls: seq<Laborer>, id: string, daily: real, date: string): (r: seq<Laborer>)
    ensures |r| == |ls| && Ids(r) == Ids(ls)
    ensures forall i :: 0 <= i < |ls| && ls[i].id != id ==> r[i] == ls[i]
    ensures forall i :: 0 <= i < |ls| && ls[i].id == id ==>
      && r[i].dutyEntries == ls[i].dutyEntries + [DutyEntry(date, daily, ls[i].dailyRate * daily)]
      && r[i].totalDaily == ls[i].totalDaily + daily
      && r[i].totalDuty == ls[i].totalDuty + ls[i].dailyRate * daily
      && r[i].id == ls[i].id && r[i].name == ls[i].name && r[i].dailyRate == ls[i].dailyRate
      && r[i].totalAdvance == ls[i].totalAdvance && r[i].advanceEntries == ls[i].advanceEntries
    ensures id !in Ids(ls) ==> r == ls
  {
    var r := seq(|ls|, i requires 0 <= i < |ls| => if ls[i].id == id then WithDuty(ls[i], daily, date) else ls[i]);
    assert forall i :: 0 <= i < |ls| && ls[i].id == id ==> r[i] == WithDuty(ls[i], daily, date);
    r
  }

  // ---------------------------------------------------------------------------
  // Adding an advance entry

  /** One laborer after an advance of `amount` on `date`. */
  function WithAdvance(l: Laborer, amount: real, date: string): (r: Laborer)
    ensures r.advanceEntries == l.advanceEntries + [AdvanceEntry(date, amount)]
    ensures r.totalAdvance == l.totalAdvance + amount
    ensures r.id == l.id && r.name == l.name && r.dailyRate == l.dailyRate
    ensures r.totalDaily == l.totalDaily && r.totalDuty == l.totalDuty && r.dutyEntries == l.dutyEntries
  {
    l.(totalAdvance := l.totalAdvance + amount,
       advanceEntries := l.advanceEntries + [AdvanceEntry(date, amount)])
  }

  /**
   `handleAddAdvance`: every laborer whose id is `id` gets `{date, amount}`
   appended to its advances and its advance total raised by `amount`; its
   duty side, name and rate are untouched. Every other laborer, the length and
   the order are unchanged.
   */
  function AddAdvance(ls: seq<Laborer>, id: string, amount: real, date: string): (r: seq<Laborer>)
    ensures |r| == |ls| && Ids(r) == Ids(ls)
    ensures forall i :: 0 <= i < |ls| && ls[i].id != id ==> r[i] == ls[i]
    ensures forall i :: 0 <= i < |ls| && ls[i].id == id ==>
      && r[i].advanceEntries == ls[i].advanceEntries + [AdvanceEntry(date, amount)]
      && r[i].totalAdvance == ls[i].totalAdvance + amount
      && r[i].id == ls[i].id && r[i].name == ls[i].name && r[i].dailyRate == ls[i].dailyRate
      && r[i].totalDaily == ls[i].totalDaily && r[i].totalDuty == ls[i].totalDuty
      && r[i].dutyEntries == ls[i].dutyEntries
    ensures id !in Ids(ls) ==> r == ls
  {
    seq(|ls|, i requires 0 <= i < |ls| => if ls[i].id == id then WithAdvance(ls[i], amount, date) else ls[i])
  }

  // ---------------------------------------------------------------------------
  // Deleting a laborer

  /** The predicate `l.id !== id` the delete handler filters with. */
  function KeepOthers(id: string): Laborer -> bool
  {
    (l: Laborer) => l.id != id
  }

  /**
   `handleDeleteLabor`: exactly the laborers with id `id` are removed; the
   others stay, in their relative order, with their contents.
   */
  function DeleteLabor(ls: seq<Laborer>, id: string): (r: seq<Laborer>)
    ensures IsSubseq(r, ls)
    ensures forall l :: l in r ==> l in ls && l.id != id
    ensures forall i :: 0 <= i < |ls| && ls[i].id != id ==> multiset(r)[ls[i]] == multiset(ls)[ls[i]]
    ensures id !in Ids(r)
    ensures AllConsistent(ls) ==> AllConsistent(r)
  {
    FilterSubseq(ls, KeepOthers(id));
    Filter(ls, KeepOthers(id))
  }

  // ---------------------------------------------------------------------------
  // Search

  /** The search test: the lower-cased name contains the lower-cased query. */
  function NameMatches(lowerQuery: string): Laborer -> bool
  {
    (l: Laborer) => Strings.Contains(Strings.ToLower(l.name), lowerQuery)
  }

  /**
   `filteredLaborers`: a blank query (all whitespace) shows everybody;
   otherwise the laborers whose lower-cased name contains the lower-cased
   query (not trimmed) are shown, in list order.
   */
  function Search(ls: seq<Laborer>, query: string): (r: seq<Laborer>)
    ensures IsSubseq(r, ls)
    ensures Strings.AllSpace(query) ==> r == ls
    ensures !Strings.AllSpace(query) ==>
      forall l :: l in r ==> l in ls && Strings.Contains(Strings.ToLower(l.name), Strings.ToLower(query))
    ensures !Strings.AllSpace(query) ==>
      forall i :: 0 <= i < |ls| && Strings.Contains(Strings.ToLower(ls[i].name), Strings.ToLower(query))
        ==> multiset(r)[ls[i]] == multiset(ls)[ls[i]]
  {
    if Strings.IsBlank(query) then
      SubseqRefl(ls);
      ls
    else
      FilterSubseq(ls, NameMatches(Strings.ToLower(query)));
      Filter(ls, NameMatches(Strings.ToLower(query)))
  }

  // ---------------------------------------------------------------------------
  // Summary cards and table rows

  /** What the summary cards show. */
  datatype Summary = Summary(totalLaborers: nat, totalDuty: real, totalAdvance: real, netPayable: real)

  /** `laborers.reduce((sum, l) => sum + l.totalDuty, 0)`. */
  function DutyTotal(ls: seq<Laborer>): real
  {
    if ls == [] then 0.0 else DutyTotal(ls[..|ls| - 1]) + ls[|ls| - 1].totalDuty
  }

  /** `laborers.reduce((sum, l) => sum + l.totalAdvance, 0)`. */
  function AdvanceTotal(ls: seq<Laborer>): real
  {
    if ls == [] then 0.0 else AdvanceTotal(ls[..|ls| - 1]) + ls[|ls| - 1].totalAdvance
  }

  /**
   `reduce` adds from the first laborer to the last; the same total is the
   first laborer's duty plus the total of the rest.
   */
  lemma {:induction false} DutyTotalFront(ls: seq<Laborer>)
    requires ls != []
    ensures DutyTotal(ls) == ls[0].totalDuty + DutyTotal(ls[1..])
  {
    if |ls| > 1 {
      var init := ls[..|ls| - 1];
      DutyTotalFront(init);
      assert init[1..] == ls[1..][..|ls| - 2];
    }
  }

  /** The same for the advance total. */
  lemma {:induction false} AdvanceTotalFront(ls: seq<Laborer>)
    requires ls != []
    ensures AdvanceTotal(ls) == ls[0].totalAdvance + AdvanceTotal(ls[1..])
  {
    if |ls| > 1 {
      var init := ls[..|ls| - 1];
      AdvanceTotalFront(init);
      assert init[1..] == ls[1..][..|ls| - 2];
    }
  }

  /** The summary cards, computed over the whole list. */
  function Summarize(ls: seq<Laborer>): (s: Summary)
    ensures s.totalLaborers == |ls|
    ensures s.totalDuty == DutyTotal(ls) && s.totalAdvance == AdvanceTotal(ls)
    ensures s.netPayable == s.totalDuty - s.totalAdvance
  {
    var duty := DutyTotal(ls);
    var advance := AdvanceTotal(ls);
    Summary(|ls|, duty, advance, duty - advance)
  }

  /** One row of the laborer table. */
  datatype TableRow = TableRow(
    id: string,
    name: string,
    totalDaily: real,
    totalDuty: real,
    totalAdvance: real,
    netPayable: real,
    dutyEntries: seq<DutyEntry>,
    advanceEntries: seq<AdvanceEntry>,
    dailyRate: real)

  /** The table row of one laborer: its own fields and its net payable. */
  function ToTableRow(l: Laborer): (row: TableRow)
    ensures row.netPayable == l.totalDuty - l.totalAdvance
    ensures row.id == l.id && row.name == l.name && row.dailyRate == l.dailyRate
    ensures row.totalDaily == l.totalDaily && row.totalDuty == l.totalDuty
    ensures row.totalAdvance == l.totalAdvance
    ensures row.dutyEntries == l.dutyEntries && row.advanceEntries == l.advanceEntries
  {
    TableRow(l.id, l.name, l.totalDaily, l.totalDuty, l.totalAdvance,
             l.totalDuty - l.totalAdvance, l.dutyEntries, l.advanceEntries, l.dailyRate)
  }

  /** `laborTableData`: one row per shown laborer, in order. */
  function TableData(ls: seq<Laborer>): (rows: seq<TableRow>)
    ensures |rows| == |ls|
    ensures forall i :: 0 <= i < |ls| ==> rows[i] == ToTableRow(ls[i])
  {
    Map(ls, ToTableRow)
  }

  /** Sum of the net payable column. */
  function NetTotal(rows: seq<TableRow>): real
  {
    if rows == [] then 0.0 else NetTotal(rows[..|rows| - 1]) + rows[|rows| - 1].netPayable
  }

  /** What the page shows for a list and a query: the cards and the table. */
  datatype PageView = PageView(summary: Summary, rows: seq<TableRow>)

  /**
   The page: the summary cards are computed from every laborer, the table
   from the search result only.
   */
  function View(ls: seq<Laborer>, query: string): (v: PageView)
    ensures v.summary.totalLaborers == |ls|
    ensures v.summary.totalDuty == DutyTotal(ls) && v.summary.totalAdvance == AdvanceTotal(ls)
    ensures v.summary.netPayable == DutyTotal(ls) - AdvanceTotal(ls)
    ensures |v.rows| == |Search(ls, query)|
    ensures forall i :: 0 <= i < |v.rows| ==> v.rows[i] == ToTableRow(Search(ls, query)[i])
    ensures forall i :: 0 <= i < |v.rows| ==> v.rows[i].netPayable == v.rows[i].totalDuty - v.rows[i].totalAdvance
  {
    PageView(Summarize(ls), TableData(Search(ls, query)))
  }

  // ---------------------------------------------------------------------------
  // The sum invariant

  lemma SumDailyAppend(es: seq<DutyEntry>, e: DutyEntry)
    ensures SumDaily(es + [e]) == SumDaily(es) + e.daily
  {
    assert (es + [e])[..|es|] == es;
  }

  lemma SumDutyAmountAppend(es: seq<DutyEntry>, e: DutyEntry)
    ensures SumDutyAmount(es + [e]) == SumDutyAmount(es) + e.amount
  {
    assert (es + [e])[..|es|] == es;
  }

  lemma SumAdvanceAmountAppend(es: seq<AdvanceEntry>, e: AdvanceEntry)
    ensures SumAdvanceAmount(es + [e]) == SumAdvanceAmount(es) + e.amount
  {
    assert (es + [e])[..|es|] == es;
  }

  /** Adding a duty keeps every laborer's totals equal to the sums of its entries. */
  lemma AddDutyPreservesConsistency(ls: seq<Laborer>, id: string, daily: real, date: string)
    requires AllConsistent(ls)
    ensures AllConsistent(AddDuty(ls, id, daily, date))
  {
    var r := AddDuty(ls, id, daily, date);
    forall l | l in r
      ensures Consistent(l)
    {
      var i :| 0 <= i < |r| && r[i] == l;
      assert ls[i] in ls;
      if ls[i].id == id {
        var e := DutyEntry(date, daily, ls[i].dailyRate * daily);
        SumDailyAppend(ls[i].dutyEntries, e);
        SumDutyAmountAppend(ls[i].dutyEntries, e);
      }
    }
  }

  /** Adding an advance keeps every laborer's totals equal to the sums of its entries. */
  lemma AddAdvancePreservesConsistency(ls: seq<Laborer>, id: string, amount: real, date: string)
    requires AllConsistent(ls)
    ensures AllConsistent(AddAdvance(ls, id, amount, date))
  {
    var r := AddAdvance(ls, id, amount, date);
    forall l | l in r
      ensures Consistent(l)
    {
      var i :| 0 <= i < |r| && r[i] == l;
      assert ls[i] in ls;
      if ls[i].id == id {
        SumAdvanceAmountAppend(ls[i].advanceEntries, AdvanceEntry(date, amount));
      }
    }
  }

  /** A user action on the ledger: one of the four handlers with its arguments. */
  datatype Action =
    | AddLaborAction(id: string, name: string, dailyRate: real)
    | AddDutyAction(id: string, daily: real, date: string)
    | AddAdvanceAction(id: string, amount: real, date: string)
    | DeleteAction(id: string)

  /** The list after one user action. */
  function Step(ls: seq<Laborer>, a: Action): seq<Laborer>
  {
    match a
    case AddLaborAction(id, name, rate) => AddLabor(ls, id, name, rate)
    case AddDutyAction(id, daily, date) => AddDuty(ls, id, daily, date)
    case AddAdvanceAction(id, amount, date) => AddAdvance(ls, id, amount, date)
    case DeleteAction(id) => DeleteLabor(ls, id)
  }

  /** The list after a sequence of user actions, applied in order. */
  function Run(ls: seq<Laborer>, actions: seq<Action>): seq<Laborer>
    decreases |actions|
  {
    if actions == [] then ls else Run(Step(ls, actions[0]), actions[1..])
  }

  /** The sum invariant holds after any sequence of actions that starts from a consistent list. */
  lemma {:induction false} RunPreservesConsistency(ls: seq<Laborer>, actions: seq<Action>)
    requires AllConsistent(ls)
    ensures AllConsistent(Run(ls, actions))
    decreases |actions|
  {
    if actions != [] {
      match actions[0] {
        case AddLaborAction(id, name, rate) =>
        case AddDutyAction(id, daily, date) => AddDutyPreservesConsistency(ls, id, daily, date);
        case AddAdvanceAction(id, amount, date) => AddAdvancePreservesConsistency(ls, id, amount, date);
        case DeleteAction(id) =>
      }
      RunPreservesConsistency(Step(ls, actions[0]), actions[1..]);
    }
  }

  // ---------------------------------------------------------------------------
  // Delete

  /** The predicate `l.id === id`. */
  function HasId(id: string): Laborer -> bool
  {
    (l: Laborer) => l.id == id
  }

  /** The laborers with id `id`, in list order. */
  function Matching(ls: seq<Laborer>, id: string): seq<Laborer>
  {
    Filter(ls, HasId(id))
  }

  /** Deleting works piecewise, so the survivors keep their relative order. */
  lemma DeleteLaborAppend(a: seq<Laborer>, b: seq<Laborer>, id: string)
    ensures DeleteLabor(a + b, id) == DeleteLabor(a, id) + DeleteLabor(b, id)
  {
    FilterAppend(a, b, KeepOthers(id));
  }

  /** Deleting an id nobody has changes nothing. */
  lemma DeleteUnknownId(ls: seq<Laborer>, id: string)
    requires id !in Ids(ls)
    ensures DeleteLabor(ls, id) == ls
  {
    assert forall i :: 0 <= i < |ls| ==> KeepOthers(id)(ls[i]) by {
      forall i | 0 <= i < |ls|
        ensures KeepOthers(id)(ls[i])
      {
        assert Ids(ls)[i] == ls[i].id;
      }
    }
    FilterAll(ls, KeepOthers(id));
  }

  /** Deleting a freshly added laborer undoes the addition. */
  lemma AddThenDelete(ls: seq<Laborer>, id: string, name: string, dailyRate: real)
    requires id !in Ids(ls)
    ensures DeleteLabor(AddLabor(ls, id, name, dailyRate), id) == ls
  {
    var l := NewLaborer(id, name, dailyRate);
    DeleteLaborAppend(ls, [l], id);
    DeleteUnknownId(ls, id);
    FilterSnoc([], l, KeepOthers(id));
    assert [] + [l] == [l];
  }

  /** Deleting twice is deleting once. */
  lemma DeleteIdempotent(ls: seq<Laborer>, id: string)
    ensures DeleteLabor(DeleteLabor(ls, id), id) == DeleteLabor(ls, id)
  {
    var r := DeleteLabor(ls, id);
    forall i | 0 <= i < |r|
      ensures KeepOthers(id)(r[i])
    {
      assert r[i] in r;
    }
    FilterAll(r, KeepOthers(id));
  }

  lemma DutyTotalAppend(ls: seq<Laborer>, l: Laborer)
    ensures DutyTotal(ls + [l]) == DutyTotal(ls) + l.totalDuty
    ensures AdvanceTotal(ls + [l]) == AdvanceTotal(ls) + l.totalAdvance
  {
    assert (ls + [l])[..|ls|] == ls;
  }

  /**
   Deleting a laborer lowers the summary totals by exactly the totals of the
   removed laborers, and the laborer count by their number.
   */
  lemma {:induction false} DeleteSummary(ls: seq<Laborer>, id: string)
    ensures DutyTotal(ls) == DutyTotal(DeleteLabor(ls, id)) + DutyTotal(Matching(ls, id))
    ensures AdvanceTotal(ls) == AdvanceTotal(DeleteLabor(ls, id)) + AdvanceTotal(Matching(ls, id))
    ensures |ls| == |DeleteLabor(ls, id)| + |Matching(ls, id)|
  {
    if ls != [] {
      var init, last := ls[..|ls| - 1], ls[|ls| - 1];
      assert ls == init + [last];
      DeleteSummary(init, id);
      FilterSnoc(init, last, KeepOthers(id));
      FilterSnoc(init, last, HasId(id));
      if last.id == id {
        DutyTotalAppend(Matching(init, id), last);
      } else {
        DutyTotalAppend(DeleteLabor(init, id), last);
      }
    }
  }

  // ---------------------------------------------------------------------------
  // Summary after adding entries

  /** What a duty of `daily` days is worth to each laborer of `ls`, summed. */
  function DutyValue(ls: seq<Laborer>, daily: real): real
  {
    if ls == [] then 0.0 else DutyValue(ls[..|ls| - 1], daily) + ls[|ls| - 1].dailyRate * daily
  }

  /** `AddDuty` on a list extended by one laborer. */
  lemma AddDutySnoc(init: seq<Laborer>, last: Laborer, id: string, daily: real, date: string)
    ensures AddDuty(init + [last], id, daily, date)
         == AddDuty(init, id, daily, date) + [if last.id == id then WithDuty(last, daily, date) else last]
  {
  }

  /** `AddAdvance` on a list extended by one laborer. */
  lemma AddAdvanceSnoc(init: seq<Laborer>, last: Laborer, id: string, amount: real, date: string)
    ensures AddAdvance(init + [last], id, amount, date)
         == AddAdvance(init, id, amount, date) + [if last.id == id then WithAdvance(last, amount, date) else last]
  {
  }

  /**
   Adding a duty raises the summary's duty total by what `daily` days are
   worth to each laborer with that id, and leaves the advance total alone.
   */
  lemma {:induction false} AddDutySummary(ls: seq<Laborer>, id: string, daily: real, date: string)
    ensures DutyTotal(AddDuty(ls, id, daily, date)) == DutyTotal(ls) + DutyValue(Matching(ls, id), daily)
    ensures AdvanceTotal(AddDuty(ls, id, daily, date)) == AdvanceTotal(ls)
  {
    if ls != [] {
      var init, last := ls[..|ls| - 1], ls[|ls| - 1];
      assert ls == init + [last];
      AddDutySummary(init, id, daily, date);
      AddDutySnoc(init, last, id, daily, date);
      var r0, m := AddDuty(init, id, daily, date), Matching(init, id);
      FilterSnoc(init, last, HasId(id));
      if last.id == id {
        assert Matching(ls, id) == m + [last];
        AddDutyStepHit(init, last, r0, m, daily, date);
      } else {
        assert Matching(ls, id) == m;
        AddDutyStepMiss(init, last, r0, m, daily);
      }
    }
  }

  /**
   The step of `AddDutySummary` when the appended laborer gets the duty; `m`
   stands for the laborers of `init` that got it too.
   */
  lemma AddDutyStepHit(init: seq<Laborer>, last: Laborer, r0: seq<Laborer>, m: seq<Laborer>, daily: real, date: string)
    requires DutyTotal(r0) == DutyTotal(init) + DutyValue(m, daily)
    requires AdvanceTotal(r0) == AdvanceTotal(init)
    ensures DutyTotal(r0 + [WithDuty(last, daily, date)]) == DutyTotal(init + [last]) + DutyValue(m + [last], daily)
    ensures AdvanceTotal(r0 + [WithDuty(last, daily, date)]) == AdvanceTotal(init + [last])
  {
    DutyTotalAppend(r0, WithDuty(last, daily, date));
    DutyTotalAppend(init, last);
    DutyValueAppend(m, last, daily);
  }

  /** The step of `AddDutySummary` when the appended laborer is left alone. */
  lemma AddDutyStepMiss(init: seq<Laborer>, last: Laborer, r0: seq<Laborer>, m: seq<Laborer>, daily: real)
    requires DutyTotal(r0) == DutyTotal(init) + DutyValue(m, daily)
    requires AdvanceTotal(r0) == AdvanceTotal(init)
    ensures DutyTotal(r0 + [last]) == DutyTotal(init + [last]) + DutyValue(m, daily)
    ensures AdvanceTotal(r0 + [last]) == AdvanceTotal(init + [last])
  {
    DutyTotalAppend(r0, last);
    DutyTotalAppend(init, last);
  }

  lemma DutyValueAppend(ls: seq<Laborer>, l: Laborer, daily: real)
    ensures DutyValue(ls + [l], daily) == DutyValue(ls, daily) + l.dailyRate * daily
  {
    assert (ls + [l])[..|ls|] == ls;
  }

  lemma DutyValueSingle(l: Laborer, daily: real)
    ensures DutyValue([l], daily) == l.dailyRate * daily
  {
    assert [l][..0] == [];
  }

  /** `amount` added up `n` times. */
  function Repeat(amount: real, n: nat): real
  {
    if n == 0 then 0.0 else Repeat(amount, n - 1) + amount
  }

  /**
   Adding an advance raises the summary's advance total by the amount once
   for each laborer with that id and leaves the duty total alone.
   */
  lemma {:induction false} AddAdvanceSummary(ls: seq<Laborer>, id: string, amount: real, date: string)
    ensures AdvanceTotal(AddAdvance(ls, id, amount, date)) == AdvanceTotal(ls) + Repeat(amount, |Matching(ls, id)|)
    ensures DutyTotal(AddAdvance(ls, id, amount, date)) == DutyTotal(ls)
  {
    if ls != [] {
      var init, last := ls[..|ls| - 1], ls[|ls| - 1];
      assert ls == init + [last];
      AddAdvanceSummary(init, id, amount, date);
      AddAdvanceSnoc(init, last, id, amount, date);
      var r0, n := AddAdvance(init, id, amount, date), |Matching(init, id)|;
      FilterSnoc(init, last, HasId(id));
      if last.id == id {
        assert |Matching(ls, id)| == n + 1;
        AddAdvanceStepHit(init, last, r0, n, amount, date);
      } else {
        assert |Matching(ls, id)| == n;
        AddAdvanceStepMiss(init, last, r0, n, amount);
      }
    }
  }

  /**
   The step of `AddAdvanceSummary` when the appended laborer gets the
   advance; `n` stands for the number of laborers of `init` that got it too.
   */
  lemma AddAdvanceStepHit(init: seq<Laborer>, last: Laborer, r0: seq<Laborer>, n: nat, amount: real, date: string)
    requires AdvanceTotal(r0) == AdvanceTotal(init) + Repeat(amount, n)
    requires DutyTotal(r0) == DutyTotal(init)
    ensures AdvanceTotal(r0 + [WithAdvance(last, amount, date)]) == AdvanceTotal(init + [last]) + Repeat(amount, n + 1)
    ensures DutyTotal(r0 + [WithAdvance(last, amount, date)]) == DutyTotal(init + [last])
  {
    DutyTotalAppend(r0, WithAdvance(last, amount, date));
    DutyTotalAppend(init, last);
  }

  /** The step of `AddAdvanceSummary` when the appended laborer is left alone. */
  lemma AddAdvanceStepMiss(init: seq<Laborer>, last: Laborer, r0: seq<Laborer>, n: nat, amount: real)
    requires AdvanceTotal(r0) == AdvanceTotal(init) + Repeat(amount, n)
    requires DutyTotal(r0) == DutyTotal(init)
    ensures AdvanceTotal(r0 + [last]) == AdvanceTotal(init + [last]) + Repeat(amount, n)
    ensures DutyTotal(r0 + [last]) == DutyTotal(init + [last])
  {
    DutyTotalAppend(r0, last);
    DutyTotalAppend(init, last);
  }

  /** With unique ids, the laborers matching an id present at index `k` are just `ls[k]`. */
  lemma MatchingUnique(ls: seq<Laborer>, k: nat)
    requires UniqueIds(ls) && k < |ls|
    ensures Matching(ls, ls[k].id) == [ls[k]]
  {
    var id := ls[k].id;
    var pre, post := ls[..k], ls[k + 1..];
    assert ls == (pre + [ls[k]]) + post;
    assert forall i :: 0 <= i < |pre| ==> !HasId(id)(pre[i]) by {
      forall i | 0 <= i < |pre|
        ensures pre[i].id != id
      {
        assert pre[i] == ls[i];
      }
    }
    assert forall i :: 0 <= i < |post| ==> !HasId(id)(post[i]) by {
      forall i | 0 <= i < |post|
        ensures post[i].id != id
      {
        assert post[i] == ls[k + 1 + i];
      }
    }
    FilterNone(pre, HasId(id));
    FilterNone(post, HasId(id));
    FilterSnoc(pre, ls[k], HasId(id));
    FilterAppend(pre + [ls[k]], post, HasId(id));
  }

  /**
   With unique ids, adding a duty to a present laborer raises the summary duty
   total by that laborer's rate times `daily`.
   */
  lemma AddDutySummaryUnique(ls: seq<Laborer>, k: nat, daily: real, date: string)
    requires UniqueIds(ls) && k < |ls|
    ensures DutyTotal(AddDuty(ls, ls[k].id, daily, date)) == DutyTotal(ls) + ls[k].dailyRate * daily
  {
    AddDutySummary(ls, ls[k].id, daily, date);
    DutyGainUnique(ls, k, DutyTotal(ls), DutyTotal(AddDuty(ls, ls[k].id, daily, date)), daily);
  }

  /** The arithmetic of `AddDutySummaryUnique`, for any total `before` and `after` adding the duty. */
  lemma DutyGainUnique(ls: seq<Laborer>, k: nat, before: real, after: real, daily: real)
    requires UniqueIds(ls) && k < |ls|
    requires after == before + DutyValue(Matching(ls, ls[k].id), daily)
    ensures after == before + ls[k].dailyRate * daily
  {
    MatchingUnique(ls, k);
    DutyValueSingle(ls[k], daily);
  }

  /**
   With unique ids, adding an advance to a present laborer raises the summary
   advance total by the amount.
   */
  lemma AddAdvanceSummaryUnique(ls: seq<Laborer>, k: nat, amount: real, date: string)
    requires UniqueIds(ls) && k < |ls|
    ensures AdvanceTotal(AddAdvance(ls, ls[k].id, amount, date)) == AdvanceTotal(ls) + amount
  {
    MatchingUnique(ls, k);
    AddAdvanceSummary(ls, ls[k].id, amount, date);
    assert Repeat(amount, 1) == amount;
  }

  // ---------------------------------------------------------------------------
  // Search

  /** The search ignores letter case in the query. */
  lemma SearchCaseInsensitive(ls: seq<Laborer>, q1: string, q2: string)
    requires Strings.ToLower(q1) == Strings.ToLower(q2)
    ensures Search(ls, q1) == Search(ls, q2)
  {
    Strings.ToLowerKeepsSpace(q1);
    Strings.ToLowerKeepsSpace(q2);
    assert Strings.AllSpace(q1) <==> Strings.AllSpace(q2) by {
      assert forall i :: 0 <= i < |q1| ==> Strings.ToLower(q1)[i] == Strings.ToLower(q2)[i];
    }
  }

  /** A search keeps relative order: it works piecewise on a split list, blank query or not. */
  lemma SearchAppend(a: seq<Laborer>, b: seq<Laborer>, query: string)
    ensures Search(a + b, query) == Search(a, query) + Search(b, query)
  {
    if !Strings.IsBlank(query) {
      FilterAppend(a, b, NameMatches(Strings.ToLower(query)));
    }
  }

  // ---------------------------------------------------------------------------
  // Summary and table

  /** The summary's net payable is the sum of the table's net payable column over all laborers. */
  lemma {:induction false} SummaryNetIsRowNetTotal(ls: seq<Laborer>)
    ensures Summarize(ls).netPayable == NetTotal(TableData(ls))
  {
    if ls != [] {
      var n := |ls|;
      SummaryNetIsRowNetTotal(ls[..n - 1]);
      assert TableData(ls)[..n - 1] == TableData(ls[..n - 1]);
    }
  }

  /** For a consistent laborer the row's net payable is earned duty minus advances paid. */
  lemma RowNetFromEntries(l: Laborer)
    requires Consistent(l)
    ensures ToTableRow(l).netPayable == SumDutyAmount(l.dutyEntries) - SumAdvanceAmount(l.advanceEntries)
  {
  }

  /** The summary cards do not depend on the search query. */
  lemma SummaryIgnoresSearch(ls: seq<Laborer>, q1: string, q2: string)
    ensures View(ls, q1).summary == View(ls, q2).summary
  {
  }

  /** The three demonstration records the page starts with. */
  function SeedLaborers(): seq<Laborer>
  {
    [Laborer("1", "Rajesh Kumar", 800.0, 15.0, 12000.0, 5000.0, [], []),
     Laborer("2", "Amit Sharma", 750.0, 12.5, 9500.0, 3000.0, [], []),
     Laborer("3", "Vijay Singh", 900.0, 16.5, 15000.0, 7000.0, [], [])]
  }

  /**
   The demonstration records carry totals without any entries behind them,
   so they lie outside the sum invariant the four transitions keep.
   */
  lemma SeedLaborersInconsistent()
    ensures forall i :: 0 <= i < |SeedLaborers()| ==> !Consistent(SeedLaborers()[i])
  {
  }

  /** A duty of 1.5 days at a rate of 800 is worth 1200. */
  lemma AddDutyExample()
    ensures var ls := AddDuty([NewLaborer("1", "Rajesh Kumar", 800.0)], "1", 1.5, "2024-10-01");
            ls[0].dutyEntries == [DutyEntry("2024-10-01", 1.5, 1200.0)] && ls[0].totalDuty == 1200.0
  {
  }
}
