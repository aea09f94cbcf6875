/** Token accounting over the rows of one trace file. */
module TraceRuler {
  import opened Wrappers

  const SUB_PROMPT_START := "You are the explore sub-agent"
  const MAIN_PROMPT_START := "You are Codifa"

  /** `tokens` of an `llm` row; a missing number reads as none. */
  datatype Tokens = Tokens(input: nat, output: nat, cacheRead: Option<nat>)

  /** `run` is the positive run id, if the row carries one. */
  datatype Row =
    | Prompt(run: Option<nat>, prompt: string)
    | Llm(run: Option<nat>, tokens: Option<Tokens>)
    | Other

  datatype Totals = Totals(calls: nat, input: nat, output: nat, cacheRead: nat, cacheReported: nat) {
    function Plus(other: Totals): Totals {
      Totals(calls + other.calls, input + other.input, output + other.output,
             cacheRead + other.cacheRead, cacheReported + other.cacheReported)
    }
  }

  const ZERO := Totals(0, 0, 0, 0, 0)

  function InputOf(row: Row): nat {
    if row.Llm? && row.tokens.Some? then row.tokens.value.input else 0
  }

  function CachedOf(row: Row): nat {
    if row.Llm? && row.tokens.Some? && row.tokens.value.cacheRead.Some? then row.tokens.value.cacheRead.value else 0
  }

  function OutputOf(row: Row): nat {
    if row.Llm? && row.tokens.Some? then row.tokens.value.output else 0
  }

  /** One for a call that reports a cache figure. */
  function ReportsCache(row: Row): nat {
    if row.Llm? && row.tokens.Some? && row.tokens.value.cacheRead.Some? then 1 else 0
  }

  /** What one row adds to a total. */
  function Bill(row: Row): Totals {
    if row.Llm? && row.tokens.Some? then
      var t := row.tokens.value;
      match t.cacheRead
      case Some(v) => Totals(1, t.input, t.output, v, 1)
      case None => Totals(1, t.input, t.output, 0, 0)
    else Totals(1, 0, 0, 0, 0)
  }

  class Usage {
    var t: Totals

    constructor ()
      ensures t == ZERO
    {
      t := ZERO;
    }

    method Add(row: Row)
      requires row.Llm?
      modifies this
      ensures t == Totals(old(t).calls + 1, old(t).input + InputOf(row), old(t).output + OutputOf(row),
                          old(t).cacheRead + CachedOf(row), old(t).cacheReported + ReportsCache(row))
      ensures t == old(t).Plus(Bill(row))
    {
      t := t.(calls := t.calls + 1);
      if row.tokens.Some? {
        var tokens := row.tokens.value;
        t := t.(input := t.input + tokens.input, output := t.output + tokens.output);
        if tokens.cacheRead.Some? {
          t := t.(cacheRead := t.cacheRead + tokens.cacheRead.value, cacheReported := t.cacheReported + 1);
        }
      }
    }
  }

  function Sum(rows: seq<Row>): Totals {
    if rows == [] then ZERO else Sum(rows[..|rows| - 1]).Plus(Bill(rows[|rows| - 1]))
  }

  // ---------- whom a row is billed to ----------

  datatype Role = Main | Explore | Ambiguous

  predicate StartsWith(s: string, prefix: string) {
    prefix <= s
  }

  /** Whether the last role prompt of run `r` among `rows` opened an explore run. */
  function RunIsSub(rows: seq<Row>, r: nat): Option<bool> {
    if rows == [] then None
    else
      var last, before := rows[|rows| - 1], rows[..|rows| - 1];
      if last.Prompt? && last.run == Some(r) then
        if StartsWith(last.prompt, SUB_PROMPT_START) then Some(true)
        else if StartsWith(last.prompt, MAIN_PROMPT_START) then Some(false)
        else RunIsSub(before, r)
      else RunIsSub(before, r)
  }

  ghost predicate SawSub(rows: seq<Row>) {
    exists k :: 0 <= k < |rows| && rows[k].Prompt? && StartsWith(rows[k].prompt, SUB_PROMPT_START)
  }

  /** The role of an `llm` row after `before`: by its run when known, else by position. */
  ghost function RoleAfter(before: seq<Row>, row: Row): Role {
    var named := if row.Llm? && row.run.Some? then RunIsSub(before, row.run.value) else None;
    match named
    case Some(sub) => if sub then Explore else Main
    case None => if SawSub(before) then Ambiguous else Main
  }

  type Judge = (seq<Row>, Row) -> Role

  /** The bill of the `llm` rows judged to be of one role. */
  ghost function Share(rows: seq<Row>, role: Role, judge: Judge): Totals {
    if rows == [] then ZERO
    else
      var last, before := rows[|rows| - 1], rows[..|rows| - 1];
      if last.Llm? && judge(before, last) == role then Share(before, role, judge).Plus(Bill(last))
      else Share(before, role, judge)
  }

  /** The bill of all `llm` rows; its `calls` is their number. */
  function AllBilled(rows: seq<Row>): Totals {
    if rows == [] then ZERO
    else
      var last, before := rows[|rows| - 1], rows[..|rows| - 1];
      if last.Llm? then AllBilled(before).Plus(Bill(last)) else AllBilled(before)
  }

  /** The `llm` rows of run `r`, in order. */
  function RowsOfRun(rows: seq<Row>, r: nat): seq<Row> {
    if rows == [] then []
    else
      var last := rows[|rows| - 1];
      if last.Llm? && last.run == Some(r) then RowsOfRun(rows[..|rows| - 1], r) + [last]
      else RowsOfRun(rows[..|rows| - 1], r)
  }

  lemma ShareSnoc(rows: seq<Row>, row: Row, role: Role, judge: Judge)
    ensures Share(rows + [row], role, judge) ==
              if row.Llm? && judge(rows, row) == role then Share(rows, role, judge).Plus(Bill(row))
              else Share(rows, role, judge)
    ensures AllBilled(rows + [row]) == if row.Llm? then AllBilled(rows).Plus(Bill(row)) else AllBilled(rows)
  {
    assert (rows + [row])[..|rows|] == rows;
  }

  lemma RowsOfRunSnoc(rows: seq<Row>, row: Row, r: nat)
    ensures RowsOfRun(rows + [row], r) ==
              if row.Llm? && row.run == Some(r) then RowsOfRun(rows, r) + [row] else RowsOfRun(rows, r)
  {
    assert (rows + [row])[..|rows|] == rows;
  }

  lemma RunIsSubSnoc(rows: seq<Row>, row: Row, r: nat)
    ensures RunIsSub(rows + [row], r) ==
              if row.Prompt? && row.run == Some(r) && StartsWith(row.prompt, SUB_PROMPT_START) then Some(true)
              else if row.Prompt? && row.run == Some(r) && StartsWith(row.prompt, MAIN_PROMPT_START) then Some(false)
              else RunIsSub(rows, r)
  {
    assert (rows + [row])[..|rows|] == rows;
  }

  lemma SawSubSnoc(rows: seq<Row>, row: Row)
    ensures SawSub(rows + [row]) <==> SawSub(rows) || (row.Prompt? && StartsWith(row.prompt, SUB_PROMPT_START))
  {
    var all := rows + [row];
    assert forall k | 0 <= k < |rows| :: all[k] == rows[k];
    assert all[|rows|] == row;
  }

  /** `m`, `e` and `a` are the shares of the `n` billed rows among `rows`. */
  ghost predicate Shares(rows: seq<Row>, m: Totals, e: Totals, a: Totals, n: nat) {
    && m == Share(rows, Main, RoleAfter)
    && e == Share(rows, Explore, RoleAfter)
    && a == Share(rows, Ambiguous, RoleAfter)
    && n == AllBilled(rows).calls
  }

  /** One more row goes to the share of its role. */
  lemma NextShares(rows: seq<Row>, row: Row, m: Totals, e: Totals, a: Totals, n: nat)
    requires Shares(rows, m, e, a, n) && row.Llm?
    ensures RoleAfter(rows, row) == Main ==> Shares(rows + [row], m.Plus(Bill(row)), e, a, n + 1)
    ensures RoleAfter(rows, row) == Explore ==> Shares(rows + [row], m, e.Plus(Bill(row)), a, n + 1)
    ensures RoleAfter(rows, row) == Ambiguous ==> Shares(rows + [row], m, e, a.Plus(Bill(row)), n + 1)
  {
    var role := RoleAfter(rows, row);
    ShareSnoc(rows, row, Main, RoleAfter);
    ShareSnoc(rows, row, Explore, RoleAfter);
    ShareSnoc(rows, row, Ambiguous, RoleAfter);
  }

  // ---------- who pays, by positions ----------

  /** A prompt of run `r` with one of the two openings. */
  ghost predicate Opens(row: Row, r: nat) {
    row.Prompt? && row.run == Some(r) && (SUB_PROMPT_START <= row.prompt || MAIN_PROMPT_START <= row.prompt)
  }

  ghost function Opening(rows: seq<Row>, r: nat): nat -> bool {
    (j: nat) => j < |rows| && Opens(rows[j], r)
  }

  ghost function ExploreOpening(rows: seq<Row>): nat -> bool {
    (j: nat) => j < |rows| && rows[j].Prompt? && SUB_PROMPT_START <= rows[j].prompt
  }

  /** `j` is the last position before `k` that `opens`. */
  ghost predicate Latest(opens: nat -> bool, k: nat, j: nat) {
    j < k && opens(j) && forall i: nat | j < i < k :: !opens(i)
  }

  /** Row `j` is the last opening of run `r` before row `k`. */
  ghost predicate LatestOpening(rows: seq<Row>, k: nat, r: nat, j: nat) {
    Latest(Opening(rows, r), k, j)
  }

  /** Call `k` carries a run whose latest opening is the explore one, or the main one. */
  ghost predicate OfExploreRun(rows: seq<Row>, k: nat) {
    && k < |rows| && rows[k].Llm? && rows[k].run.Some?
    && exists j: nat :: LatestOpening(rows, k, rows[k].run.value, j) && ExploreOpening(rows)(j)
  }

  ghost predicate OfMainRun(rows: seq<Row>, k: nat) {
    && k < |rows| && rows[k].Llm? && rows[k].run.Some?
    && exists j: nat :: LatestOpening(rows, k, rows[k].run.value, j) && !ExploreOpening(rows)(j)
  }

  /** Call `k` carries no run, or one that no prompt before it opened. */
  ghost predicate Unattributed(rows: seq<Row>, k: nat) {
    && k < |rows| && rows[k].Llm?
    && (rows[k].run.Some? ==> forall j: nat | j < k :: !Opening(rows, rows[k].run.value)(j))
  }

  ghost predicate BehindExplore(rows: seq<Row>, k: nat) {
    exists j: nat :: j < k && ExploreOpening(rows)(j)
  }

  ghost function PaidByExplore(rows: seq<Row>): nat -> bool {
    (k: nat) => OfExploreRun(rows, k)
  }

  ghost function PaidByMain(rows: seq<Row>): nat -> bool {
    (k: nat) => OfMainRun(rows, k) || (Unattributed(rows, k) && !BehindExplore(rows, k))
  }

  ghost function PaidByNobody(rows: seq<Row>): nat -> bool {
    (k: nat) => Unattributed(rows, k) && BehindExplore(rows, k)
  }

  ghost function SumTo(n: nat, f: nat -> nat): nat {
    if n == 0 then 0 else SumTo(n - 1, f) + f(n - 1)
  }

  /** The figure of the first `n` rows at the positions chosen. */
  ghost function FigureAt(rows: seq<Row>, n: nat, chosen: nat -> bool, figure: Row -> nat): nat
    requires n <= |rows|
  {
    SumTo(n, (k: nat) => if k < |rows| && chosen(k) then figure(rows[k]) else 0)
  }

  /** `t` is, figure by figure, the sum over the chosen ones of the first `n` rows. */
  ghost predicate IsBillOf(t: Totals, rows: seq<Row>, n: nat, chosen: nat -> bool)
    requires n <= |rows|
  {
    && t.calls == FigureAt(rows, n, chosen, row => 1)
    && t.input == FigureAt(rows, n, chosen, InputOf)
    && t.output == FigureAt(rows, n, chosen, OutputOf)
    && t.cacheRead == FigureAt(rows, n, chosen, CachedOf)
    && t.cacheReported == FigureAt(rows, n, chosen, ReportsCache)
  }

  lemma NextBill(t: Totals, rows: seq<Row>, n: nat, chosen: nat -> bool)
    requires n < |rows| && IsBillOf(t, rows, n, chosen) && (chosen(n) ==> rows[n].Llm?)
    ensures IsBillOf(if chosen(n) then t.Plus(Bill(rows[n])) else t, rows, n + 1, chosen)
  {
  }

  /** `answer` is what the latest opening before `k` says, or nothing where there is none. */
  ghost predicate Says(opens: nat -> bool, sub: nat -> bool, k: nat, answer: Option<bool>) {
    && (answer == None <==> forall j: nat | j < k :: !opens(j))
    && (answer.Some? ==> exists j: nat :: Latest(opens, k, j))
    && (forall j: nat | Latest(opens, k, j) :: answer == Some(sub(j)))
  }

  lemma SaysNext(opens: nat -> bool, sub: nat -> bool, k: nat, answer: Option<bool>)
    requires Says(opens, sub, k, answer)
    ensures opens(k) ==> Says(opens, sub, k + 1, Some(sub(k)))
    ensures !opens(k) ==> Says(opens, sub, k + 1, answer)
  {
    if opens(k) {
      assert Latest(opens, k + 1, k);
    } else {
      assert forall j: nat :: Latest(opens, k + 1, j) <==> Latest(opens, k, j);
    }
  }

  /** The prompt map's answer is the latest opening's. */
  lemma {:induction false} LatestOpeningCounts(rows: seq<Row>, k: nat, r: nat)
    requires k <= |rows|
    ensures Says(Opening(rows, r), ExploreOpening(rows), k, RunIsSub(rows[..k], r))
  {
    if k > 0 {
      LatestOpeningCounts(rows, k - 1, r);
      SaysNext(Opening(rows, r), ExploreOpening(rows), k - 1, RunIsSub(rows[..k - 1], r));
      AnswerNext(rows, k - 1, r);
    }
  }

  lemma AnswerNext(rows: seq<Row>, k: nat, r: nat)
    requires k < |rows|
    ensures RunIsSub(rows[..k + 1], r) ==
            if Opening(rows, r)(k) then Some(ExploreOpening(rows)(k)) else RunIsSub(rows[..k], r)
  {
    RunIsSubSnoc(rows[..k], rows[k], r);
    assert rows[..k + 1] == rows[..k] + [rows[k]];
  }

  /** Each call has one payer, and it is the one the loop's maps name. */
  lemma RoleByPosition(rows: seq<Row>, k: nat)
    requires k < |rows| && rows[k].Llm?
    ensures RoleAfter(rows[..k], rows[k]) == Explore <==> PaidByExplore(rows)(k)
    ensures RoleAfter(rows[..k], rows[k]) == Main <==> PaidByMain(rows)(k)
    ensures RoleAfter(rows[..k], rows[k]) == Ambiguous <==> PaidByNobody(rows)(k)
  {
    SawByPosition(rows, k);
    if rows[k].run.Some? {
      LatestOpeningCounts(rows, k, rows[k].run.value);
    }
  }

  lemma SawByPosition(rows: seq<Row>, k: nat)
    requires k <= |rows|
    ensures SawSub(rows[..k]) <==> BehindExplore(rows, k)
  {
    var before := rows[..k];
    assert forall j | 0 <= j < k :: before[j] == rows[j];
    if j: nat :| j < k && ExploreOpening(rows)(j) {
      assert before[j].Prompt? && StartsWith(before[j].prompt, SUB_PROMPT_START);
    }
    if SawSub(before) {
      var j :| 0 <= j < k && before[j].Prompt? && StartsWith(before[j].prompt, SUB_PROMPT_START);
      assert ExploreOpening(rows)(j);
    }
  }

  /** The shares of the first `n` rows are the bills of the positions that pay. */
  ghost predicate SharesAt(rows: seq<Row>, n: nat)
    requires n <= |rows|
  {
    && IsBillOf(Share(rows[..n], Main, RoleAfter), rows, n, PaidByMain(rows))
    && IsBillOf(Share(rows[..n], Explore, RoleAfter), rows, n, PaidByExplore(rows))
    && IsBillOf(Share(rows[..n], Ambiguous, RoleAfter), rows, n, PaidByNobody(rows))
  }

  lemma SharesAtNext(rows: seq<Row>, n: nat)
    requires n < |rows| && SharesAt(rows, n)
    ensures SharesAt(rows, n + 1)
  {
    ShareByPositionNext(rows, n, Main, PaidByMain(rows));
    ShareByPositionNext(rows, n, Explore, PaidByExplore(rows));
    ShareByPositionNext(rows, n, Ambiguous, PaidByNobody(rows));
  }

  lemma NoShares(rows: seq<Row>)
    ensures SharesAt(rows, 0)
  {
    assert rows[..0] == [];
  }

  lemma {:induction false} SharesByPosition(rows: seq<Row>, n: nat)
    requires n <= |rows|
    ensures SharesAt(rows, n)
  {
    if n == 0 {
      NoShares(rows);
    } else {
      SharesByPosition(rows, n - 1);
      SharesAtNext(rows, n - 1);
    }
  }

  lemma ShareByPositionNext(rows: seq<Row>, n: nat, role: Role, chosen: nat -> bool)
    requires n < |rows| && IsBillOf(Share(rows[..n], role, RoleAfter), rows, n, chosen)
    requires role == Main ==> chosen == PaidByMain(rows)
    requires role == Explore ==> chosen == PaidByExplore(rows)
    requires role == Ambiguous ==> chosen == PaidByNobody(rows)
    ensures IsBillOf(Share(rows[..n + 1], role, RoleAfter), rows, n + 1, chosen)
  {
    assert rows[..n + 1] == rows[..n] + [rows[n]];
    ShareSnoc(rows[..n], rows[n], role, RoleAfter);
    if rows[n].Llm? {
      RoleByPosition(rows, n);
    }
    NextBill(Share(rows[..n], role, RoleAfter), rows, n, chosen);
  }

  /** The calls whose run an earlier prompt opened. */
  function NamedCalls(rows: seq<Row>): nat {
    if rows == [] then 0
    else
      var last, before := rows[|rows| - 1], rows[..|rows| - 1];
      NamedCalls(before) + if last.Llm? && last.run.Some? && RunIsSub(before, last.run.value).Some? then 1 else 0
  }

  lemma NamedSnoc(rows: seq<Row>, row: Row)
    ensures NamedCalls(rows + [row]) ==
            NamedCalls(rows) + if row.Llm? && row.run.Some? && RunIsSub(rows, row.run.value).Some? then 1 else 0
  {
    assert (rows + [row])[..|rows|] == rows;
  }

  ghost function OpenedBefore(rows: seq<Row>): nat -> bool {
    (k: nat) => OfExploreRun(rows, k) || OfMainRun(rows, k)
  }

  lemma {:induction false} NamedByPosition(rows: seq<Row>, n: nat)
    requires n <= |rows|
    ensures NamedCalls(rows[..n]) == FigureAt(rows, n, OpenedBefore(rows), row => 1)
  {
    if n > 0 {
      NamedByPosition(rows, n - 1);
      NamedNext(rows, n - 1);
    }
  }

  lemma NamedNext(rows: seq<Row>, n: nat)
    requires n < |rows|
    ensures NamedCalls(rows[..n + 1]) == NamedCalls(rows[..n]) + if OpenedBefore(rows)(n) then 1 else 0
  {
    assert rows[..n + 1] == rows[..n] + [rows[n]];
    NamedSnoc(rows[..n], rows[n]);
    if rows[n].Llm? && rows[n].run.Some? {
      LatestOpeningCounts(rows, n, rows[n].run.value);
    }
  }

  /** The running state of the attribution loop; `seen` are the rows it has taken. */
  class Ledger {
    const main: Usage
    const explore: Usage
    const ambiguous: Usage
    var byRun: nat
    var byPosition: nat
    var runIsSub: map<nat, bool>
    var sawSub: bool
    var perRun: map<nat, seq<Row>>
    ghost var seen: seq<Row>

    ghost predicate Valid()
      reads this, main, explore, ambiguous
    {
      && main != explore && main != ambiguous && explore != ambiguous
      && Booked(seen) && Knows(seen) && Filed(seen)
    }

    /** The totals are the shares of `rows`. */
    ghost predicate Booked(rows: seq<Row>)
      reads this, main, explore, ambiguous
    {
      Shares(rows, main.t, explore.t, ambiguous.t, byRun + byPosition) && byRun == NamedCalls(rows)
    }

    /** The prompt maps describe `rows`. */
    ghost predicate Knows(rows: seq<Row>)
      reads this
    {
      && (forall r :: r in runIsSub <==> RunIsSub(rows, r).Some?)
      && (forall r | r in runIsSub :: RunIsSub(rows, r) == Some(runIsSub[r]))
      && (sawSub <==> SawSub(rows))
    }

    /** Each run has its rows of `rows`. */
    ghost predicate Filed(rows: seq<Row>)
      reads this
    {
      && (forall r :: r in perRun <==> RowsOfRun(rows, r) != [])
      && (forall r | r in perRun :: perRun[r] == RowsOfRun(rows, r))
    }

    constructor ()
      ensures Valid() && seen == [] && fresh(main) && fresh(explore) && fresh(ambiguous)
    {
      main := new Usage();
      explore := new Usage();
      ambiguous := new Usage();
      byRun, byPosition, runIsSub, sawSub, perRun, seen := 0, 0, map[], false, map[], [];
    }

    /** One turn of the loop over the rows. */
    method Take(row: Row)
      requires Valid()
      modifies this, main, explore, ambiguous
      ensures Valid() && seen == old(seen) + [row]
      ensures IsBillOf(main.t, seen, |seen|, PaidByMain(seen))
      ensures IsBillOf(explore.t, seen, |seen|, PaidByExplore(seen))
      ensures IsBillOf(ambiguous.t, seen, |seen|, PaidByNobody(seen))
    {
      Book(row);
      PaidBySeen();
    }

    method Book(row: Row)
      requires Valid()
      modifies this, main, explore, ambiguous
      ensures Valid() && seen == old(seen) + [row]
    {
      if row.Llm? {
        FileRow(row);
        BillRow(row);
        StillKnown(row);
      } else {
        NotBilled(row);
        NotFiled(row);
        TakePrompt(row);
      }
      seen := seen + [row];
    }

    /** The totals, said by positions of the rows seen. */
    lemma PaidBySeen()
      requires Valid()
      ensures IsBillOf(main.t, seen, |seen|, PaidByMain(seen))
      ensures IsBillOf(explore.t, seen, |seen|, PaidByExplore(seen))
      ensures IsBillOf(ambiguous.t, seen, |seen|, PaidByNobody(seen))
    {
      SharesByPosition(seen, |seen|);
      assert seen[..|seen|] == seen;
    }

    lemma NotBilled(row: Row)
      requires !row.Llm? && Booked(seen)
      ensures Booked(seen + [row])
    {
      ShareSnoc(seen, row, Main, RoleAfter);
      ShareSnoc(seen, row, Explore, RoleAfter);
      ShareSnoc(seen, row, Ambiguous, RoleAfter);
      NamedSnoc(seen, row);
    }

    lemma NotFiled(row: Row)
      requires !row.Llm? && Filed(seen)
      ensures Filed(seen + [row])
    {
      forall r: nat ensures RowsOfRun(seen + [row], r) == RowsOfRun(seen, r) {
        RowsOfRunSnoc(seen, row, r);
      }
    }

    lemma StillKnown(row: Row)
      requires !row.Prompt? && Knows(seen)
      ensures Knows(seen + [row])
    {
      forall r: nat ensures RunIsSub(seen + [row], r) == RunIsSub(seen, r) {
        RunIsSubSnoc(seen, row, r);
      }
      SawSubSnoc(seen, row);
    }

    method TakePrompt(row: Row)
      requires Knows(seen)
      modifies this`runIsSub, this`sawSub
      ensures Knows(seen + [row])
    {
      if !row.Prompt? {
        StillKnown(row);
        return;
      }
      forall r: nat
        ensures RunIsSub(seen + [row], r) ==
                if row.run == Some(r) && StartsWith(row.prompt, SUB_PROMPT_START) then Some(true)
                else if row.run == Some(r) && StartsWith(row.prompt, MAIN_PROMPT_START) then Some(false)
                else RunIsSub(seen, r)
      {
        RunIsSubSnoc(seen, row, r);
      }
      SawSubSnoc(seen, row);
      if StartsWith(row.prompt, SUB_PROMPT_START) {
        sawSub := true;
        if row.run.Some? {
          runIsSub := runIsSub[row.run.value := true];
        }
      } else if StartsWith(row.prompt, MAIN_PROMPT_START) {
        if row.run.Some? {
          runIsSub := runIsSub[row.run.value := false];
        }
      }
    }

    /** Keep the row under its run, in order. */
    method FileRow(row: Row)
      requires row.Llm? && Filed(seen)
      modifies this`perRun
      ensures Filed(seen + [row])
    {
      forall r: nat
        ensures RowsOfRun(seen + [row], r) ==
                if row.run == Some(r) then RowsOfRun(seen, r) + [row] else RowsOfRun(seen, r)
      {
        RowsOfRunSnoc(seen, row, r);
      }
      if row.run.Some? {
        var r := row.run.value;
        perRun := perRun[r := (if r in perRun then perRun[r] else []) + [row]];
      }
    }

    /** Who pays for the row, as the prompt maps tell it. */
    ghost function PayerOf(row: Row): Role
      requires row.Llm?
      reads this
    {
      if row.run.Some? && row.run.value in runIsSub then (if runIsSub[row.run.value] then Explore else Main)
      else if sawSub then Ambiguous else Main
    }

    lemma PayerIsRole(row: Row)
      requires row.Llm? && Knows(seen)
      ensures PayerOf(row) == RoleAfter(seen, row)
    {
    }

    /** Add the row to the total of its role, and count how it got there. */
    method BillTo(row: Row)
      requires row.Llm?
      requires main != explore && main != ambiguous && explore != ambiguous
      modifies this`byRun, this`byPosition, main, explore, ambiguous
      ensures main.t == if old(PayerOf(row)) == Main then old(main.t).Plus(Bill(row)) else old(main.t)
      ensures explore.t == if old(PayerOf(row)) == Explore then old(explore.t).Plus(Bill(row)) else old(explore.t)
      ensures ambiguous.t ==
              if old(PayerOf(row)) == Ambiguous then old(ambiguous.t).Plus(Bill(row)) else old(ambiguous.t)
      ensures byRun == old(byRun) + (if old(row.run.Some? && row.run.value in runIsSub) then 1 else 0)
      ensures byPosition == old(byPosition) + (if old(row.run.Some? && row.run.value in runIsSub) then 0 else 1)
    {
      if row.run.Some? && row.run.value in runIsSub {
        byRun := byRun + 1;
        if runIsSub[row.run.value] {
          explore.Add(row);
        } else {
          main.Add(row);
        }
      } else {
        byPosition := byPosition + 1;
        if sawSub {
          ambiguous.Add(row);
        } else {
          main.Add(row);
        }
      }
    }

    method BillRow(row: Row)
      requires row.Llm? && Knows(seen) && Booked(seen)
      requires main != explore && main != ambiguous && explore != ambiguous
      modifies this`byRun, this`byPosition, main, explore, ambiguous
      ensures Booked(seen + [row])
    {
      PayerIsRole(row);
      NextShares(seen, row, main.t, explore.t, ambiguous.t, byRun + byPosition);
      NamedSnoc(seen, row);
      BillTo(row);
    }
  }

  /** A figure of the totals that simply adds up, such as the number of calls or the input tokens. */
  ghost predicate Additive(figure: Totals -> nat) {
    figure(ZERO) == 0 && forall x: Totals, y: Totals :: figure(x.Plus(y)) == figure(x) + figure(y)
  }

  lemma FiguresAdd()
    ensures Additive((t: Totals) => t.calls) && Additive((t: Totals) => t.input) && Additive((t: Totals) => t.output)
    ensures Additive((t: Totals) => t.cacheRead) && Additive((t: Totals) => t.cacheReported)
  {
  }

  /**
   Nothing is lost and nothing counted twice, whoever is judged to pay: every figure of the three
   shares adds up to that of the whole bill.
   */
  lemma {:induction false} BillsAreConserved(rows: seq<Row>, judge: Judge, figure: Totals -> nat)
    requires Additive(figure)
    ensures figure(Share(rows, Main, judge)) + figure(Share(rows, Explore, judge))
            + figure(Share(rows, Ambiguous, judge))
            == figure(AllBilled(rows))
  {
    if rows != [] {
      BillsAreConserved(rows[..|rows| - 1], judge, figure);
    }
  }

  /** Totals whose every figure adds up are sums. */
  lemma FiguresDecide(a: Totals, b: Totals, c: Totals, whole: Totals)
    requires forall figure | Additive(figure) :: figure(a) + figure(b) + figure(c) == figure(whole)
    ensures a.Plus(b).Plus(c) == whole
  {
    FiguresAdd();
    var calls, input, output := (t: Totals) => t.calls, (t: Totals) => t.input, (t: Totals) => t.output;
    var cacheRead, cacheReported := (t: Totals) => t.cacheRead, (t: Totals) => t.cacheReported;
    assert Additive(calls) && Additive(input) && Additive(output) && Additive(cacheRead) && Additive(cacheReported);
    assert calls(a) + calls(b) + calls(c) == calls(whole) && input(a) + input(b) + input(c) == input(whole);
    assert output(a) + output(b) + output(c) == output(whole);
    assert cacheRead(a) + cacheRead(b) + cacheRead(c) == cacheRead(whole);
    assert cacheReported(a) + cacheReported(b) + cacheReported(c) == cacheReported(whole);
  }

  /** The attribution loop over one file. */
  method Attribute(rows: seq<Row>) returns (ledger: Ledger)
    ensures ledger.Valid() && ledger.seen == rows
    ensures ledger.main.t.Plus(ledger.explore.t).Plus(ledger.ambiguous.t) == AllBilled(rows)
    ensures IsBillOf(ledger.main.t, rows, |rows|, PaidByMain(rows))
    ensures IsBillOf(ledger.explore.t, rows, |rows|, PaidByExplore(rows))
    ensures IsBillOf(ledger.ambiguous.t, rows, |rows|, PaidByNobody(rows))
    ensures ledger.byRun == FigureAt(rows, |rows|, OpenedBefore(rows), row => 1)
    ensures ledger.byRun + ledger.byPosition == AllBilled(rows).calls
  {
    ledger := new Ledger();
    var i := 0;
    while i < |rows|
      invariant 0 <= i <= |rows|
      invariant ledger.Valid() && ledger.seen == rows[..i]
      invariant fresh(ledger) && fresh(ledger.main) && fresh(ledger.explore) && fresh(ledger.ambiguous)
    {
      ledger.Take(rows[i]);
      assert rows[..i + 1] == rows[..i] + [rows[i]];
      i := i + 1;
    }
    assert rows[..i] == rows;
    SharesByPosition(rows, |rows|);
    NamedByPosition(rows, |rows|);
    forall figure | Additive(figure)
      ensures figure(ledger.main.t) + figure(ledger.explore.t) + figure(ledger.ambiguous.t) == figure(AllBilled(rows))
    {
      BillsAreConserved(rows, RoleAfter, figure);
    }
    FiguresDecide(ledger.main.t, ledger.explore.t, ledger.ambiguous.t, AllBilled(rows));
  }

  // ---------- avoidable tokens inside one run ----------

  function Minus(a: nat, b: nat): nat {
    if a >= b then a - b else 0
  }

  function Growth(prev: Row, row: Row): nat {
    Minus(InputOf(row), InputOf(prev))
  }

  function Uncached(row: Row): nat {
    Minus(InputOf(row), CachedOf(row))
  }

  /** What a later call re-billed beyond the growth of its prompt. */
  function Excess(prev: Row, row: Row): nat {
    Minus(Uncached(row), Growth(prev, row))
  }

  predicate Breaks(prev: Row, row: Row) {
    Excess(prev, row) > InputOf(row) / 4
  }

  /** Breaks of the prefix: tokens and number, where the prompt shrank and where it did not. */
  datatype Causes = Causes(shrinkTok: nat, shrinks: nat, growTok: nat, grows: nat) {
    function Plus(other: Causes): Causes {
      Causes(shrinkTok + other.shrinkTok, shrinks + other.shrinks, growTok + other.growTok, grows + other.grows)
    }
  }

  const NO_CAUSES := Causes(0, 0, 0, 0)

  /** Sums over the later calls of a run. */
  datatype Waste = Waste(avoidable: nat, uncached: nat, growth: nat, breaks: nat, causes: Causes)

  function CauseOf(prev: Row, row: Row): Causes {
    if !Breaks(prev, row) then NO_CAUSES
    else if InputOf(row) < InputOf(prev) then Causes(Excess(prev, row), 1, 0, 0)
    else Causes(0, 0, Excess(prev, row), 1)
  }

  /** One later call added. */
  function Later(w: Waste, prev: Row, row: Row): Waste {
    Waste(w.avoidable + Excess(prev, row), w.uncached + Uncached(row), w.growth + Growth(prev, row),
          if Breaks(prev, row) then w.breaks + 1 else w.breaks, w.causes.Plus(CauseOf(prev, row)))
  }

  function WasteOf(run: seq<Row>): Waste {
    if |run| <= 1 then Waste(0, 0, 0, 0, NO_CAUSES)
    else Later(WasteOf(run[..|run| - 1]), run[|run| - 2], run[|run| - 1])
  }

  /** The later calls of one run, added to `warm`. */
  method MeasureRun(run: seq<Row>, warm: Usage) returns (w: Waste)
    requires run != [] && forall row | row in run :: row.Llm?
    modifies warm
    ensures w == WasteOf(run)
    ensures warm.t == old(warm.t).Plus(Sum(run[1..]))
  {
    w := Waste(0, 0, 0, 0, NO_CAUSES);
    assert run[1..1] == [] && run[..1] == [run[0]];
    var i := 1;
    while i < |run|
      invariant 1 <= i <= |run|
      invariant warm.t == old(warm.t).Plus(Sum(run[1..i]))
      invariant w == WasteOf(run[..i])
    {
      var prev, row := run[i - 1], run[i];
      assert row in run;
      NextCall(run, i);
      PlusIsAssociative(old(warm.t), Sum(run[1..i]), Bill(row));
      warm.Add(row);
      w := OneCall(w, prev, row);
      i := i + 1;
    }
    WholeRun(run);
  }

  lemma WholeRun<T>(run: seq<T>)
    requires run != []
    ensures run[..|run|] == run && run[1..|run|] == run[1..]
  {
  }

  lemma PlusIsAssociative(a: Totals, b: Totals, c: Totals)
    ensures a.Plus(b).Plus(c) == a.Plus(b.Plus(c))
  {
  }

  lemma NextCall(run: seq<Row>, i: nat)
    requires 1 <= i < |run|
    ensures WasteOf(run[..i + 1]) == Later(WasteOf(run[..i]), run[i - 1], run[i])
    ensures Sum(run[1..i + 1]) == Sum(run[1..i]).Plus(Bill(run[i]))
  {
    assert run[..i + 1][..i] == run[..i] && run[1..i + 1][..i - 1] == run[1..i];
  }

  /** The body of the loop over the later calls of a run. */
  method OneCall(w: Waste, prev: Row, row: Row) returns (w': Waste)
    ensures w' == Later(w, prev, row)
  {
    var input, cached := InputOf(row), CachedOf(row);
    var uncached := if input >= cached then input - cached else 0;
    var grew := if input >= InputOf(prev) then input - InputOf(prev) else 0;
    var excess := if uncached >= grew then uncached - grew else 0;
    w' := w.(avoidable := w.avoidable + excess, uncached := w.uncached + uncached, growth := w.growth + grew);
    if excess > input / 4 {
      var causes := w'.causes;
      if input < InputOf(prev) {
        causes := causes.(shrinkTok := causes.shrinkTok + excess, shrinks := causes.shrinks + 1);
      } else {
        causes := causes.(growTok := causes.growTok + excess, grows := causes.grows + 1);
      }
      w' := w'.(breaks := w'.breaks + 1, causes := causes);
    }
  }

  /** The later calls of a run paid for prompt growth and for `avoidable`, and for nothing else. */
  lemma {:induction false} UncachedIsGrowthOrAvoidable(run: seq<Row>)
    ensures WasteOf(run).uncached <= WasteOf(run).growth + WasteOf(run).avoidable
    ensures WasteOf(run).causes.shrinkTok + WasteOf(run).causes.growTok <= WasteOf(run).avoidable
    ensures WasteOf(run).avoidable <= WasteOf(run).uncached
    ensures WasteOf(run).causes.shrinks + WasteOf(run).causes.grows == WasteOf(run).breaks
  {
    if |run| > 1 {
      UncachedIsGrowthOrAvoidable(run[..|run| - 1]);
    }
  }

  /** The cache served at least what this prompt shares in length with the previous one. */
  ghost predicate CacheHeld(prev: Row, row: Row) {
    CachedOf(row) >= InputOf(row) || CachedOf(row) >= InputOf(prev)
  }

  ghost predicate AlwaysHeld(run: seq<Row>) {
    forall k | 1 <= k < |run| :: CacheHeld(run[k - 1], run[k])
  }

  /** Nothing was avoidable exactly when every later call's cache held, and then no prefix broke. */
  lemma {:induction false} NothingAvoidableIffCacheHeld(run: seq<Row>)
    ensures WasteOf(run).avoidable == 0 <==> AlwaysHeld(run)
    ensures WasteOf(run).avoidable == 0 ==> WasteOf(run).breaks == 0
  {
    if |run| > 1 {
      var front := run[..|run| - 1];
      NothingAvoidableIffCacheHeld(front);
      NoExcessIffHeld(run[|run| - 2], run[|run| - 1]);
      HeldSoFar(run);
    }
  }

  lemma NoExcessIffHeld(prev: Row, row: Row)
    ensures Excess(prev, row) == 0 <==> CacheHeld(prev, row)
    ensures Excess(prev, row) == 0 ==> !Breaks(prev, row)
  {
  }

  lemma HeldSoFar(run: seq<Row>)
    requires |run| > 1
    ensures AlwaysHeld(run) <==> AlwaysHeld(run[..|run| - 1]) && CacheHeld(run[|run| - 2], run[|run| - 1])
  {
    var front := run[..|run| - 1];
    assert forall k | 0 <= k < |front| :: front[k] == run[k];
  }

  // ---------- what was re-billed, by positions ----------

  /** Call `k` paid again for what it shares in length with the call before, beyond what its cache served. */
  function Rebilled(run: seq<Row>, k: nat): nat {
    if k == 0 || k >= |run| then 0
    else
      var shared := if InputOf(run[k]) < InputOf(run[k - 1]) then InputOf(run[k]) else InputOf(run[k - 1]);
      if CachedOf(run[k]) < shared then shared - CachedOf(run[k]) else 0
  }

  /** ... and that is more than a quarter of its input. */
  predicate BreaksAt(run: seq<Row>, k: nat) {
    k < |run| && 4 * Rebilled(run, k) > InputOf(run[k])
  }

  predicate ShrinksAt(run: seq<Row>, k: nat) {
    0 < k < |run| && InputOf(run[k]) < InputOf(run[k - 1])
  }

  ghost function Everywhere(): nat -> bool {
    (k: nat) => true
  }

  ghost function Breaking(run: seq<Row>): nat -> bool {
    (k: nat) => BreaksAt(run, k)
  }

  ghost function BreakingOff(run: seq<Row>, shrinks: bool): nat -> bool {
    (k: nat) => BreaksAt(run, k) && ShrinksAt(run, k) == shrinks
  }

  ghost function RebilledWhere(run: seq<Row>, chosen: nat -> bool): nat -> nat {
    (k: nat) => if chosen(k) then Rebilled(run, k) else 0
  }

  ghost function One(chosen: nat -> bool): nat -> nat {
    (k: nat) => if chosen(k) then 1 else 0
  }

  ghost predicate IsWasteOf(w: Waste, run: seq<Row>, n: nat) {
    && w.avoidable == SumTo(n, RebilledWhere(run, Everywhere()))
    && w.breaks == SumTo(n, One(Breaking(run)))
    && w.causes.shrinkTok == SumTo(n, RebilledWhere(run, BreakingOff(run, true)))
    && w.causes.shrinks == SumTo(n, One(BreakingOff(run, true)))
    && w.causes.growTok == SumTo(n, RebilledWhere(run, BreakingOff(run, false)))
    && w.causes.grows == SumTo(n, One(BreakingOff(run, false)))
  }

  lemma WasteNext(w: Waste, run: seq<Row>, n: nat)
    requires 0 < n < |run| && IsWasteOf(w, run, n)
    ensures IsWasteOf(Later(w, run[n - 1], run[n]), run, n + 1)
  {
    ExcessIsRebilled(run, n);
  }

  lemma ExcessIsRebilled(run: seq<Row>, k: nat)
    requires 0 < k < |run|
    ensures Excess(run[k - 1], run[k]) == Rebilled(run, k)
    ensures Breaks(run[k - 1], run[k]) <==> BreaksAt(run, k)
  {
  }

  /** Avoidable tokens, breaks and their two causes are counted call by call. */
  lemma {:induction false} WasteByPosition(run: seq<Row>, n: nat)
    requires n <= |run|
    ensures IsWasteOf(WasteOf(run[..n]), run, n)
  {
    if n > 1 {
      WasteByPosition(run, n - 1);
      NextCall(run, n - 1);
      WasteNext(WasteOf(run[..n - 1]), run, n - 1);
    } else {
      FirstWaste(run, n);
    }
  }

  lemma FirstWaste(run: seq<Row>, n: nat)
    requires n <= 1 && n <= |run|
    ensures IsWasteOf(Waste(0, 0, 0, 0, NO_CAUSES), run, n)
  {
    NothingFirst(n, RebilledWhere(run, Everywhere()));
    NothingFirst(n, One(Breaking(run)));
    NothingFirst(n, RebilledWhere(run, BreakingOff(run, true)));
    NothingFirst(n, One(BreakingOff(run, true)));
    NothingFirst(n, RebilledWhere(run, BreakingOff(run, false)));
    NothingFirst(n, One(BreakingOff(run, false)));
  }

  lemma NothingFirst(n: nat, f: nat -> nat)
    requires n <= 1 && f(0) == 0
    ensures SumTo(n, f) == 0
  {
    if n == 1 {
      assert SumTo(0, f) == 0;
    }
  }
}
