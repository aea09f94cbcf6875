/** Cold and warm calls and broken prefixes over all runs of a trace. */
module TraceReport {
  import opened Wrappers
  import opened Sorting
  import opened TraceRuler

  type Runs = map<nat, seq<Row>>

  /** A run's line in the report. */
  datatype RunWaste = RunWaste(run: nat, sub: bool, calls: nat, avoidable: nat, breaks: nat)

  function IsSub(run: nat, runIsSub: map<nat, bool>): bool {
    run in runIsSub && runIsSub[run]
  }

  /** Every run holds calls, and nothing but calls. */
  ghost predicate CallsOnly(runs: Runs) {
    forall r | r in runs :: runs[r] != [] && forall row | row in runs[r] :: row.Llm?
  }

  // ---------- what the loop over the runs adds up ----------

  function Cold(order: seq<nat>, runs: Runs): Totals
    requires forall r | r in order :: r in runs && runs[r] != []
  {
    if order == [] then ZERO
    else
      var last := order[|order| - 1];
      Cold(order[..|order| - 1], runs).Plus(Bill(runs[last][0]))
  }

  function Warm(order: seq<nat>, runs: Runs): Totals
    requires forall r | r in order :: r in runs && runs[r] != []
  {
    if order == [] then ZERO
    else
      var last := order[|order| - 1];
      Warm(order[..|order| - 1], runs).Plus(Sum(runs[last][1..]))
  }

  function CausesIn(order: seq<nat>, runs: Runs, runIsSub: map<nat, bool>, sub: bool): Causes
    requires forall r | r in order :: r in runs
  {
    if order == [] then NO_CAUSES
    else
      var last, before := order[|order| - 1], CausesIn(order[..|order| - 1], runs, runIsSub, sub);
      if IsSub(last, runIsSub) == sub then before.Plus(WasteOf(runs[last]).causes) else before
  }

  function Lines(order: seq<nat>, runs: Runs, runIsSub: map<nat, bool>): seq<RunWaste>
    requires forall r | r in order :: r in runs
  {
    seq(|order|, i requires 0 <= i < |order| => Line(order[i], runs, runIsSub))
  }

  /** The sums over the runs of `order`. */
  ghost predicate Adds(order: seq<nat>, runs: Runs, runIsSub: map<nat, bool>, cold: Totals, warm: Totals,
                       main: Causes, explore: Causes, lines: seq<RunWaste>)
    requires forall r | r in order :: r in runs && runs[r] != []
  {
    && cold == Cold(order, runs) && warm == Warm(order, runs)
    && main == CausesIn(order, runs, runIsSub, false) && explore == CausesIn(order, runs, runIsSub, true)
    && lines == Lines(order, runs, runIsSub)
  }

  class Report {
    const cold: Usage
    const warm: Usage
    var main: Causes
    var explore: Causes
    var lines: seq<RunWaste>

    constructor ()
      ensures fresh(cold) && fresh(warm) && cold != warm && cold.t == ZERO && warm.t == ZERO
      ensures main == NO_CAUSES && explore == NO_CAUSES && lines == []
    {
      cold := new Usage();
      warm := new Usage();
      main, explore, lines := NO_CAUSES, NO_CAUSES, [];
    }

    /** The report covers the runs of `order`. */
    ghost predicate Covers(order: seq<nat>, runs: Runs, runIsSub: map<nat, bool>)
      requires forall r | r in order :: r in runs && runs[r] != []
      reads this, cold, warm
    {
      cold != warm && Adds(order, runs, runIsSub, cold.t, warm.t, main, explore, lines)
    }

    /** The body of the loop over the runs. */
    method AddRun(run: nat, list: seq<Row>, sub: bool)
      requires cold != warm && list != [] && forall row | row in list :: row.Llm?
      modifies this, cold, warm
      ensures cold.t == old(cold.t).Plus(Bill(list[0])) && warm.t == old(warm.t).Plus(Sum(list[1..]))
      ensures main == if sub then old(main) else old(main).Plus(WasteOf(list).causes)
      ensures explore == if sub then old(explore).Plus(WasteOf(list).causes) else old(explore)
      ensures lines == old(lines) + [RunWaste(run, sub, |list|, WasteOf(list).avoidable, WasteOf(list).breaks)]
    {
      assert list[0] in list;
      cold.Add(list[0]);
      var w := MeasureRun(list, warm);
      if sub {
        explore := explore.Plus(w.causes);
      } else {
        main := main.Plus(w.causes);
      }
      lines := lines + [RunWaste(run, sub, |list|, w.avoidable, w.breaks)];
    }
  }

  lemma SumsNext(order: seq<nat>, i: nat, runs: Runs)
    requires i < |order| && forall r | r in order :: r in runs && runs[r] != []
    ensures forall r | r in order[..i + 1] :: r in order
    ensures Cold(order[..i + 1], runs) == Cold(order[..i], runs).Plus(Bill(runs[order[i]][0]))
    ensures Warm(order[..i + 1], runs) == Warm(order[..i], runs).Plus(Sum(runs[order[i]][1..]))
  {
    assert order[..i + 1][..i] == order[..i];
  }

  lemma CausesNext(order: seq<nat>, i: nat, runs: Runs, runIsSub: map<nat, bool>, sub: bool)
    requires i < |order| && forall r | r in order :: r in runs
    ensures CausesIn(order[..i + 1], runs, runIsSub, sub) ==
              if IsSub(order[i], runIsSub) == sub
              then CausesIn(order[..i], runs, runIsSub, sub).Plus(WasteOf(runs[order[i]]).causes)
              else CausesIn(order[..i], runs, runIsSub, sub)
  {
    assert order[..i + 1][..i] == order[..i];
  }

  function Line(run: nat, runs: Runs, runIsSub: map<nat, bool>): RunWaste
    requires run in runs
  {
    RunWaste(run, IsSub(run, runIsSub), |runs[run]|, WasteOf(runs[run]).avoidable, WasteOf(runs[run]).breaks)
  }

  lemma LinesNext(order: seq<nat>, i: nat, runs: Runs, runIsSub: map<nat, bool>)
    requires i < |order| && forall r | r in order :: r in runs
    ensures Lines(order[..i + 1], runs, runIsSub) ==
            Lines(order[..i], runs, runIsSub) + [Line(order[i], runs, runIsSub)]
  {
  }

  lemma AddsNext(order: seq<nat>, i: nat, runs: Runs, runIsSub: map<nat, bool>, cold: Totals, warm: Totals,
                 main: Causes, explore: Causes, lines: seq<RunWaste>)
    requires i < |order| && forall r | r in order :: r in runs && runs[r] != []
    requires forall r | r in order[..i] :: r in order
    requires Adds(order[..i], runs, runIsSub, cold, warm, main, explore, lines)
    ensures forall r | r in order[..i + 1] :: r in order
    ensures var list, sub := runs[order[i]], IsSub(order[i], runIsSub);
            Adds(order[..i + 1], runs, runIsSub, cold.Plus(Bill(list[0])), warm.Plus(Sum(list[1..])),
                 if sub then main else main.Plus(WasteOf(list).causes),
                 if sub then explore.Plus(WasteOf(list).causes) else explore,
                 lines + [RunWaste(order[i], sub, |list|, WasteOf(list).avoidable, WasteOf(list).breaks)])
  {
    SumsNext(order, i, runs);
    CausesNext(order, i, runs, runIsSub, false);
    CausesNext(order, i, runs, runIsSub, true);
    LinesNext(order, i, runs, runIsSub);
  }

  /** The loop over the runs, in the map's order. */
  method BreakDown(runs: Runs, runIsSub: map<nat, bool>, order: seq<nat>) returns (report: Report)
    requires CallsOnly(runs) && Lists(order, runs.Keys)
    ensures fresh(report) && fresh(report.cold) && fresh(report.warm)
    ensures report.Covers(order, runs, runIsSub)
  {
    report := new Report();
    var i := 0;
    while i < |order|
      invariant 0 <= i <= |order|
      invariant fresh(report) && fresh(report.cold) && fresh(report.warm)
      invariant report.Covers(order[..i], runs, runIsSub)
    {
      AddsNext(order, i, runs, runIsSub, report.cold.t, report.warm.t, report.main, report.explore, report.lines);
      report.AddRun(order[i], runs[order[i]], IsSub(order[i], runIsSub));
      i := i + 1;
    }
    assert order[..i] == order;
  }

  // ---------- every call of a run is cold or warm ----------

  /** The bill of the calls that carry a run. */
  function NumberedBill(rows: seq<Row>): Totals {
    if rows == [] then ZERO
    else
      var last, before := rows[|rows| - 1], NumberedBill(rows[..|rows| - 1]);
      if last.Llm? && last.run.Some? then before.Plus(Bill(last)) else before
  }

  function SumOver(order: seq<nat>, f: nat -> nat): nat {
    if order == [] then 0 else SumOver(order[..|order| - 1], f) + f(order[|order| - 1])
  }

  /** Raising `f` at one listed place raises the sum by as much. */
  lemma {:induction false} RaisedAt(order: seq<nat>, f: nat -> nat, g: nat -> nat, at: nat, by': nat)
    requires Distinct(order) && forall r | r in order :: g(r) == if r == at then f(r) + by' else f(r)
    ensures SumOver(order, g) == if at in order then SumOver(order, f) + by' else SumOver(order, f)
  {
    if order != [] {
      var front, last := order[..|order| - 1], order[|order| - 1];
      assert order == front + [last];
      RaisedAt(front, f, g, at, by');
    }
  }

  /** The figure of a run's rows, as a function of the run. */
  function RunFigure(rows: seq<Row>, figure: Totals -> nat): nat -> nat {
    r => figure(Sum(RowsOfRun(rows, r)))
  }

  lemma {:induction false} NothingYet(order: seq<nat>, figure: Totals -> nat)
    requires Additive(figure)
    ensures SumOver(order, RunFigure([], figure)) == 0
  {
    if order != [] {
      NothingYet(order[..|order| - 1], figure);
      var none: seq<Row> := [];
      assert RowsOfRun(none, order[|order| - 1]) == none && Sum(none) == ZERO;
    }
  }

  lemma OneMoreRow(rows: seq<Row>, row: Row, r: nat, figure: Totals -> nat)
    requires Additive(figure)
    ensures RunFigure(rows + [row], figure)(r) ==
              RunFigure(rows, figure)(r) + if row.Llm? && row.run == Some(r) then figure(Bill(row)) else 0
  {
    RowsOfRunSnoc(rows, row, r);
    var mine := RowsOfRun(rows, r);
    assert (mine + [row])[..|mine|] == mine;
    assert Sum(mine + [row]) == Sum(mine).Plus(Bill(row));
    assert figure(Sum(mine).Plus(Bill(row))) == figure(Sum(mine)) + figure(Bill(row));
  }

  /** Runs that cover all rows hold the bill of all calls that carry a run. */
  lemma {:induction false} RunsHoldTheNumbered(rows: seq<Row>, order: seq<nat>, figure: Totals -> nat)
    requires Additive(figure) && Distinct(order)
    requires forall row | row in rows && row.Llm? && row.run.Some? :: row.run.value in order
    ensures SumOver(order, RunFigure(rows, figure)) == figure(NumberedBill(rows))
  {
    if rows == [] {
      NothingYet(order, figure);
    } else {
      var before, last := rows[..|rows| - 1], rows[|rows| - 1];
      assert rows == before + [last];
      RunsHoldTheNumbered(before, order, figure);
      forall r | r in order
        ensures RunFigure(rows, figure)(r) ==
                RunFigure(before, figure)(r) + if last.Llm? && last.run == Some(r) then figure(Bill(last)) else 0
      {
        OneMoreRow(before, last, r, figure);
      }
      var numbered := last.Llm? && last.run.Some?;
      RaisedAt(order, RunFigure(before, figure), RunFigure(rows, figure),
               if numbered then last.run.value else 0, if numbered then figure(Bill(last)) else 0);
    }
  }

  lemma {:induction false} SumOfFirst(run: seq<Row>, figure: Totals -> nat)
    requires run != [] && Additive(figure)
    ensures figure(Sum(run)) == figure(Bill(run[0])) + figure(Sum(run[1..]))
  {
    var n := |run| - 1;
    if n == 0 {
      assert run[..0] == [] && run[1..] == [];
    } else {
      SumOfFirst(run[..n], figure);
      InnerSlice(run);
      assert Sum(run) == Sum(run[..n]).Plus(Bill(run[n]));
      assert Sum(run[1..]) == Sum(run[..n][1..]).Plus(Bill(run[n]));
    }
  }

  lemma InnerSlice<T>(s: seq<T>)
    requires |s| >= 2
    ensures s[..|s| - 1][0] == s[0] && s[1..][|s| - 2] == s[|s| - 1]
    ensures s[1..][..|s| - 2] == s[..|s| - 1][1..]
  {
  }

  lemma {:induction false} ColdAndWarm(order: seq<nat>, runs: Runs, figure: Totals -> nat, f: nat -> nat)
    requires Additive(figure) && forall r | r in order :: r in runs && runs[r] != [] && f(r) == figure(Sum(runs[r]))
    ensures figure(Cold(order, runs)) + figure(Warm(order, runs)) == SumOver(order, f)
  {
    if order != [] {
      var front, last := order[..|order| - 1], order[|order| - 1];
      assert order == front + [last];
      ColdAndWarm(front, runs, figure, f);
      SumOfFirst(runs[last], figure);
    }
  }

  /** First and later calls together are exactly the calls that carry a run, in every figure. */
  lemma ColdAndWarmAreTheNumbered(rows: seq<Row>, runs: Runs, order: seq<nat>, figure: Totals -> nat)
    requires Additive(figure) && Lists(order, runs.Keys)
    requires forall r :: r in runs <==> RowsOfRun(rows, r) != []
    requires forall r | r in runs :: runs[r] == RowsOfRun(rows, r)
    ensures figure(Cold(order, runs)) + figure(Warm(order, runs)) == figure(NumberedBill(rows))
  {
    forall row | row in rows && row.Llm? && row.run.Some? ensures row.run.value in order {
      HasRows(rows, row);
    }
    ColdAndWarm(order, runs, figure, RunFigure(rows, figure));
    RunsHoldTheNumbered(rows, order, figure);
  }

  lemma {:induction false} HasRows(rows: seq<Row>, row: Row)
    requires row in rows && row.Llm? && row.run.Some?
    ensures RowsOfRun(rows, row.run.value) != []
  {
    var before, last := rows[..|rows| - 1], rows[|rows| - 1];
    if row != last {
      assert rows == before + [last];
      HasRows(before, row);
    }
  }

  lemma {:induction false} RunRowsAreCalls(rows: seq<Row>, r: nat)
    ensures forall row | row in RowsOfRun(rows, r) :: row.Llm?
  {
    if rows != [] {
      RunRowsAreCalls(rows[..|rows| - 1], r);
    }
  }

  // ---------- which calls are cold, by positions ----------

  /** Call `k` carries a run, and no call before it carries the same one. */
  ghost predicate OpensItsRun(rows: seq<Row>, k: nat) {
    && k < |rows| && rows[k].Llm? && rows[k].run.Some?
    && forall j | 0 <= j < k && rows[j].Llm? :: rows[j].run != rows[k].run
  }

  ghost function FirstCalls(rows: seq<Row>): nat -> bool {
    (k: nat) => OpensItsRun(rows, k)
  }

  ghost function LaterCalls(rows: seq<Row>): nat -> bool {
    (k: nat) => k < |rows| && rows[k].Llm? && rows[k].run.Some? && !OpensItsRun(rows, k)
  }

  /** The figure of the chosen calls. */
  ghost function CallsBill(rows: seq<Row>, chosen: nat -> bool, figure: Totals -> nat): nat -> nat {
    (k: nat) => if k < |rows| && chosen(k) then figure(Bill(rows[k])) else 0
  }

  /** The figure of a run's first call, as a function of the run. */
  function Opener(rows: seq<Row>, figure: Totals -> nat): nat -> nat {
    (r: nat) => FirstFigure(RowsOfRun(rows, r), figure)
  }

  function FirstFigure(run: seq<Row>, figure: Totals -> nat): nat {
    if run == [] then 0 else figure(Bill(run[0]))
  }

  lemma {:induction false} NoOpeners(order: seq<nat>, figure: Totals -> nat)
    ensures SumOver(order, Opener([], figure)) == 0
  {
    if order != [] {
      NoOpeners(order[..|order| - 1], figure);
      var none: seq<Row> := [];
      assert RowsOfRun(none, order[|order| - 1]) == none;
    }
  }

  lemma OneMoreOpener(rows: seq<Row>, row: Row, r: nat, figure: Totals -> nat)
    ensures Opener(rows + [row], figure)(r) ==
            Opener(rows, figure)(r)
            + if row.Llm? && row.run == Some(r) && RowsOfRun(rows, r) == [] then figure(Bill(row)) else 0
  {
    RowsOfRunSnoc(rows, row, r);
  }

  lemma {:induction false} NoRowsYet(rows: seq<Row>, r: nat)
    ensures RowsOfRun(rows, r) == [] <==> forall j | 0 <= j < |rows| && rows[j].Llm? :: rows[j].run != Some(r)
  {
    if rows != [] {
      NoRowsYet(rows[..|rows| - 1], r);
    }
  }

  lemma OpensByRows(rows: seq<Row>, k: nat)
    requires k < |rows| && rows[k].Llm? && rows[k].run.Some?
    ensures RowsOfRun(rows[..k], rows[k].run.value) == [] <==> OpensItsRun(rows, k)
  {
    NoRowsYet(rows[..k], rows[k].run.value);
    assert forall j | 0 <= j < k :: rows[..k][j] == rows[j];
  }

  /** First calls, run by run, are first calls, row by row. */
  lemma {:induction false} OpenersByPosition(rows: seq<Row>, n: nat, order: seq<nat>, figure: Totals -> nat)
    requires n <= |rows| && Distinct(order)
    requires forall row | row in rows && row.Llm? && row.run.Some? :: row.run.value in order
    ensures SumOver(order, Opener(rows[..n], figure)) == SumTo(n, CallsBill(rows, FirstCalls(rows), figure))
  {
    if n == 0 {
      assert rows[..0] == [];
      NoOpeners(order, figure);
    } else {
      OpenersByPosition(rows, n - 1, order, figure);
      OpenersNext(rows, n, order, figure);
    }
  }

  lemma OpenersOfAll(rows: seq<Row>, order: seq<nat>, figure: Totals -> nat)
    requires Distinct(order)
    requires forall row | row in rows && row.Llm? && row.run.Some? :: row.run.value in order
    ensures SumOver(order, Opener(rows, figure)) == SumTo(|rows|, CallsBill(rows, FirstCalls(rows), figure))
  {
    OpenersByPosition(rows, |rows|, order, figure);
    assert rows[..|rows|] == rows;
  }

  lemma OpenersNext(rows: seq<Row>, n: nat, order: seq<nat>, figure: Totals -> nat)
    requires 0 < n <= |rows| && Distinct(order)
    requires forall row | row in rows && row.Llm? && row.run.Some? :: row.run.value in order
    ensures SumOver(order, Opener(rows[..n], figure)) ==
            SumOver(order, Opener(rows[..n - 1], figure)) + CallsBill(rows, FirstCalls(rows), figure)(n - 1)
  {
    var before, row := rows[..n - 1], rows[n - 1];
    assert rows[..n] == before + [row];
    var opens := row.Llm? && row.run.Some? && RowsOfRun(before, row.run.value) == [];
    forall r | r in order
      ensures Opener(rows[..n], figure)(r) ==
              Opener(before, figure)(r)
              + if row.Llm? && row.run == Some(r) && RowsOfRun(before, r) == [] then figure(Bill(row)) else 0
    {
      OneMoreOpener(before, row, r, figure);
    }
    RaisedAt(order, Opener(before, figure), Opener(rows[..n], figure),
             if opens then row.run.value else 0, if opens then figure(Bill(row)) else 0);
    if row.Llm? && row.run.Some? {
      OpensByRows(rows, n - 1);
    }
  }

  lemma {:induction false} ColdIsOpeners(order: seq<nat>, runs: Runs, figure: Totals -> nat, f: nat -> nat)
    requires Additive(figure)
    requires forall r | r in order :: r in runs && runs[r] != [] && f(r) == figure(Bill(runs[r][0]))
    ensures figure(Cold(order, runs)) == SumOver(order, f)
  {
    if order != [] {
      var front, last := order[..|order| - 1], order[|order| - 1];
      assert order == front + [last];
      ColdIsOpeners(front, runs, figure, f);
    }
  }

  lemma {:induction false} NumberedByPosition(rows: seq<Row>, n: nat, figure: Totals -> nat)
    requires n <= |rows| && Additive(figure)
    ensures figure(NumberedBill(rows[..n])) ==
            SumTo(n, CallsBill(rows, FirstCalls(rows), figure)) + SumTo(n, CallsBill(rows, LaterCalls(rows), figure))
  {
    if n == 0 {
      assert rows[..0] == [];
    } else {
      NumberedByPosition(rows, n - 1, figure);
      NumberedNext(rows, n, figure);
    }
  }

  lemma NumberedNext(rows: seq<Row>, n: nat, figure: Totals -> nat)
    requires 0 < n <= |rows| && Additive(figure)
    ensures figure(NumberedBill(rows[..n])) ==
            figure(NumberedBill(rows[..n - 1])) + CallsBill(rows, FirstCalls(rows), figure)(n - 1)
            + CallsBill(rows, LaterCalls(rows), figure)(n - 1)
  {
    var before, row := rows[..n - 1], rows[n - 1];
    assert rows[..n][..n - 1] == before;
    if row.Llm? && row.run.Some? {
      assert figure(NumberedBill(before).Plus(Bill(row))) == figure(NumberedBill(before)) + figure(Bill(row));
    }
  }

  lemma NumberedOfAll(rows: seq<Row>, figure: Totals -> nat)
    requires Additive(figure)
    ensures figure(NumberedBill(rows)) == SumTo(|rows|, CallsBill(rows, FirstCalls(rows), figure))
            + SumTo(|rows|, CallsBill(rows, LaterCalls(rows), figure))
  {
    NumberedByPosition(rows, |rows|, figure);
    assert rows[..|rows|] == rows;
  }

  lemma RunsAreListed(rows: seq<Row>, runs: Runs, order: seq<nat>)
    requires Lists(order, runs.Keys) && forall r :: r in runs <==> RowsOfRun(rows, r) != []
    ensures forall row | row in rows && row.Llm? && row.run.Some? :: row.run.value in order
  {
    forall row | row in rows && row.Llm? && row.run.Some? ensures row.run.value in order {
      HasRows(rows, row);
    }
  }

  lemma ColdByPosition(rows: seq<Row>, runs: Runs, order: seq<nat>, figure: Totals -> nat)
    requires Additive(figure) && Lists(order, runs.Keys)
    requires forall r :: r in runs <==> RowsOfRun(rows, r) != []
    requires forall r | r in runs :: runs[r] == RowsOfRun(rows, r)
    ensures figure(Cold(order, runs)) == SumTo(|rows|, CallsBill(rows, FirstCalls(rows), figure))
  {
    RunsAreListed(rows, runs, order);
    ColdIsOpeners(order, runs, figure, Opener(rows, figure));
    OpenersOfAll(rows, order, figure);
  }

  /** Cold are exactly the calls that open their run, warm exactly the later ones, in every figure. */
  lemma ColdAndWarmByPosition(rows: seq<Row>, runs: Runs, order: seq<nat>, figure: Totals -> nat)
    requires Additive(figure) && Lists(order, runs.Keys)
    requires forall r :: r in runs <==> RowsOfRun(rows, r) != []
    requires forall r | r in runs :: runs[r] == RowsOfRun(rows, r)
    ensures figure(Cold(order, runs)) == SumTo(|rows|, CallsBill(rows, FirstCalls(rows), figure))
    ensures figure(Warm(order, runs)) == SumTo(|rows|, CallsBill(rows, LaterCalls(rows), figure))
  {
    ColdByPosition(rows, runs, order, figure);
    ColdAndWarmAreTheNumbered(rows, runs, order, figure);
    NumberedOfAll(rows, figure);
  }

  // ---------- breaks and avoidable tokens, per role ----------

  function Avoidable(lines: seq<RunWaste>, sub: bool): nat {
    if lines == [] then 0
    else
      var last := lines[|lines| - 1];
      Avoidable(lines[..|lines| - 1], sub) + if last.sub == sub then last.avoidable else 0
  }

  function BreaksOf(lines: seq<RunWaste>, sub: bool): nat {
    if lines == [] then 0
    else
      var last := lines[|lines| - 1];
      BreaksOf(lines[..|lines| - 1], sub) + if last.sub == sub then last.breaks else 0
  }

  ghost predicate CausesFit(causes: Causes, lines: seq<RunWaste>, sub: bool) {
    causes.shrinks + causes.grows == BreaksOf(lines, sub) && causes.shrinkTok + causes.growTok <= Avoidable(lines, sub)
  }

  /** In each role the two causes split the breaks, and their tokens stay within what was avoidable. */
  lemma {:induction false} CausesSplitBreaks(order: seq<nat>, runs: Runs, runIsSub: map<nat, bool>, sub: bool)
    requires forall r | r in order :: r in runs && runs[r] != []
    ensures CausesFit(CausesIn(order, runs, runIsSub, sub), Lines(order, runs, runIsSub), sub)
  {
    if order != [] {
      var n := |order| - 1;
      CausesSplitBreaks(order[..n], runs, runIsSub, sub);
      assert order[..n + 1] == order;
      CausesNext(order, n, runs, runIsSub, sub);
      LinesNext(order, n, runs, runIsSub);
      UncachedIsGrowthOrAvoidable(runs[order[n]]);
      var lines := Lines(order, runs, runIsSub);
      assert lines[..n] == Lines(order[..n], runs, runIsSub);
    }
  }

  // ---------- a whole file ----------

  /** Attribute a file's rows, then break its runs down. */
  method Measure(rows: seq<Row>) returns (ledger: Ledger, report: Report)
    ensures ledger.Valid() && ledger.seen == rows && Accounts(report, rows)
  {
    ledger := Attribute(rows);
    report := MeasureRuns(rows, ledger.perRun, ledger.runIsSub);
  }

  /**
   First and later calls are the calls that carry a run, each run's role is what its latest opening
   in the file says, and each role's causes are its breaks.
   */
  ghost predicate Accounts(report: Report, rows: seq<Row>)
    reads report, report.cold, report.warm
  {
    && (forall figure | Additive(figure) ::
          && figure(report.cold.t) + figure(report.warm.t) == figure(NumberedBill(rows))
          && figure(report.cold.t) == SumTo(|rows|, CallsBill(rows, FirstCalls(rows), figure))
          && figure(report.warm.t) == SumTo(|rows|, CallsBill(rows, LaterCalls(rows), figure)))
    && (forall line | line in report.lines ::
          line.sub <==> exists j: nat :: LatestOpening(rows, |rows|, line.run, j) && ExploreOpening(rows)(j))
    && CausesFit(report.main, report.lines, false) && CausesFit(report.explore, report.lines, true)
  }

  method MeasureRuns(rows: seq<Row>, runs: Runs, runIsSub: map<nat, bool>) returns (report: Report)
    requires forall r :: r in runs <==> RowsOfRun(rows, r) != []
    requires forall r | r in runs :: runs[r] == RowsOfRun(rows, r)
    requires forall r :: IsSub(r, runIsSub) <==> RunIsSub(rows, r) == Some(true)
    ensures fresh(report) && fresh(report.cold) && fresh(report.warm) && Accounts(report, rows)
  {
    forall r | r in runs ensures runs[r] != [] && forall row: Row | row in runs[r] :: row.Llm? {
      RunRowsAreCalls(rows, r);
    }
    var order := KeysOf(runs);
    report := BreakDown(runs, runIsSub, order);
    forall figure | Additive(figure)
      ensures figure(report.cold.t) + figure(report.warm.t) == figure(NumberedBill(rows))
      ensures figure(report.cold.t) == SumTo(|rows|, CallsBill(rows, FirstCalls(rows), figure))
      ensures figure(report.warm.t) == SumTo(|rows|, CallsBill(rows, LaterCalls(rows), figure))
    {
      ColdAndWarmAreTheNumbered(rows, runs, order, figure);
      ColdAndWarmByPosition(rows, runs, order, figure);
    }
    forall line | line in report.lines
      ensures line.sub <==> exists j: nat :: LatestOpening(rows, |rows|, line.run, j) && ExploreOpening(rows)(j)
    {
      SubByPosition(rows, line.run);
    }
    CausesSplitBreaks(order, runs, runIsSub, false);
    CausesSplitBreaks(order, runs, runIsSub, true);
  }

  lemma SubByPosition(rows: seq<Row>, r: nat)
    ensures RunIsSub(rows, r) == Some(true) <==>
            exists j: nat :: LatestOpening(rows, |rows|, r, j) && ExploreOpening(rows)(j)
  {
    assert rows[..|rows|] == rows;
    LatestOpeningCounts(rows, |rows|, r);
  }

  /** The runs in some order; no sum depends on it. */
  method KeysOf(runs: Runs) returns (order: seq<nat>)
    ensures Lists(order, runs.Keys)
  {
    order := [];
    var todo := runs.Keys;
    while todo != {}
      invariant todo <= runs.Keys && Lists(order, runs.Keys - todo)
    {
      var r :| r in todo;
      order := order + [r];
      todo := todo - {r};
    }
  }
}
