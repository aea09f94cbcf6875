/** Merging the provider rows of a cached settings file back into the live one. */
module Recovery {
  import opened Wrappers

  /** A row that is an object; `id` is "" when it has none, `keys` counts its API keys, `body` stands for the rest. */
  datatype Row = NotDict | Dict(id: string, keys: nat, body: int) {
    predicate Named() {
      Dict? && id != ""
    }

    function KeyCount(): nat {
      if Dict? then keys else 0
    }
  }

  const RESTORED := " (credentials restored)"

  function IdsOf(rows: seq<Row>): seq<string> {
    if rows == [] then []
    else
      var before, last := IdsOf(rows[..|rows| - 1]), rows[|rows| - 1];
      if last.Named() then before + [last.id] else before
  }

  function LastOf(rows: seq<Row>, id: string): Option<Row> {
    if rows == [] then None
    else
      var last := rows[|rows| - 1];
      if last.Named() && last.id == id then Some(last) else LastOf(rows[..|rows| - 1], id)
  }

  /** The row an id has after both files are read. */
  function Chosen(live: seq<Row>, cache: seq<Row>, id: string): Option<Row> {
    if cache == [] then LastOf(live, id)
    else
      var before, last := Chosen(live, cache[..|cache| - 1], id), cache[|cache| - 1];
      if last.Named() && last.id == id
         && (before.None? || (before.value.KeyCount() == 0 && last.KeyCount() > 0))
      then Some(last)
      else before
  }

  lemma {:induction false} ChosenHasItsId(live: seq<Row>, cache: seq<Row>, id: string)
    ensures Chosen(live, cache, id).Some? ==>
            Chosen(live, cache, id).value.Named() && Chosen(live, cache, id).value.id == id
  {
    if cache != [] {
      ChosenHasItsId(live, cache[..|cache| - 1], id);
    } else {
      LastHasItsId(live, id);
    }
  }

  lemma {:induction false} LastHasItsId(rows: seq<Row>, id: string)
    ensures LastOf(rows, id).Some? ==>
            LastOf(rows, id).value in rows && LastOf(rows, id).value.Named() && LastOf(rows, id).value.id == id
    ensures LastOf(rows, id).Some? <==> id in IdsOf(rows)
  {
    if rows != [] {
      LastHasItsId(rows[..|rows| - 1], id);
    }
  }

  /** The ids the cache adds, in the order it first names them. */
  function NewIds(live: seq<Row>, cache: seq<Row>): seq<string> {
    if cache == [] then []
    else
      var front, last := cache[..|cache| - 1], cache[|cache| - 1];
      if last.Named() && Chosen(live, front, last.id).None? then NewIds(live, front) + [last.id]
      else NewIds(live, front)
  }

  /** What is reported: each id added, and each id that got its credentials back. */
  function Report(live: seq<Row>, cache: seq<Row>): seq<string> {
    if cache == [] then []
    else
      var front, last := cache[..|cache| - 1], cache[|cache| - 1];
      var before := Report(live, front);
      if !last.Named() then before
      else
        match Chosen(live, front, last.id)
        case None => before + [last.id]
        case Some(row) => if row.KeyCount() == 0 && last.KeyCount() > 0 then before + [last.id + RESTORED] else before
  }

  /** The merged row of every id of `ids`. */
  function Rows(live: seq<Row>, cache: seq<Row>, ids: seq<string>): seq<Row>
    requires forall id | id in ids :: Chosen(live, cache, id).Some?
  {
    seq(|ids|, i requires 0 <= i < |ids| => Chosen(live, cache, ids[i]).value)
  }

  lemma {:induction false} AllIdsAreChosen(live: seq<Row>, cache: seq<Row>)
    ensures forall id :: Chosen(live, cache, id).Some? <==> id in IdsOf(live) + NewIds(live, cache)
  {
    if cache == [] {
      forall id ensures Chosen(live, cache, id).Some? <==> id in IdsOf(live) {
        LastHasItsId(live, id);
      }
    } else {
      AllIdsAreChosen(live, cache[..|cache| - 1]);
    }
  }

  function Order(live: seq<Row>, cache: seq<Row>): (ids: seq<string>)
    ensures forall id | id in ids :: Chosen(live, cache, id).Some?
  {
    AllIdsAreChosen(live, cache);
    IdsOf(live) + NewIds(live, cache)
  }

  method Merge(live: seq<Row>, cache: seq<Row>) returns (merged: seq<Row>, recovered: seq<string>)
    ensures merged == Rows(live, cache, Order(live, cache))
    ensures recovered == Report(live, cache)
  {
    var order: seq<string> := [];
    var final: map<string, Row> := map[];
    for i := 0 to |live|
      invariant order == IdsOf(live[..i])
      invariant forall id :: LastOf(live[..i], id) == if id in final then Some(final[id]) else None
    {
      var row := live[i];
      assert live[..i + 1][..i] == live[..i];
      if row.Named() {
        order := order + [row.id];
        final := final[row.id := row];
      }
    }
    assert live[..|live|] == live;
    recovered := [];
    for i := 0 to |cache|
      invariant order == IdsOf(live) + NewIds(live, cache[..i])
      invariant forall id :: Chosen(live, cache[..i], id) == if id in final then Some(final[id]) else None
      invariant recovered == Report(live, cache[..i])
    {
      var row := cache[i];
      assert cache[..i + 1][..i] == cache[..i];
      if !row.Named() {
        continue;
      }
      if row.id !in final {
        final := final[row.id := row];
        order := order + [row.id];
        recovered := recovered + [row.id];
      } else if final[row.id].KeyCount() == 0 && row.KeyCount() > 0 {
        final := final[row.id := row];
        recovered := recovered + [row.id + RESTORED];
      }
    }
    assert cache[..|cache|] == cache;
    assert order == Order(live, cache);
    merged := seq(|order|, i requires 0 <= i < |order| && order[i] in final => final[order[i]]);
  }

  // ---------- what the merge keeps ----------

  /** The first row of an id in the cache that passes. */
  function FirstOf(cache: seq<Row>, id: string, keyed: bool): Option<Row> {
    if cache == [] then None
    else
      var before, last := FirstOf(cache[..|cache| - 1], id, keyed), cache[|cache| - 1];
      if before.Some? then before
      else if last.Named() && last.id == id && (keyed ==> last.KeyCount() > 0) then Some(last)
      else None
  }

  /** The live row wins, else the cache's first; and a row without keys gives way to the cache's first one with keys. */
  lemma {:induction false} ChosenIs(live: seq<Row>, cache: seq<Row>, id: string)
    ensures var base := if LastOf(live, id).Some? then LastOf(live, id) else FirstOf(cache, id, false);
            var keyed := FirstOf(cache, id, true);
            Chosen(live, cache, id) == if base.Some? && base.value.KeyCount() == 0 && keyed.Some? then keyed else base
  {
    if cache != [] {
      ChosenIs(live, cache[..|cache| - 1], id);
      FirstIsKeyed(cache[..|cache| - 1], id);
    }
  }

  lemma {:induction false} FirstIsKeyed(cache: seq<Row>, id: string)
    ensures FirstOf(cache, id, true).Some? ==>
            FirstOf(cache, id, true).value.KeyCount() > 0 && FirstOf(cache, id, false).Some?
    ensures FirstOf(cache, id, false).Some? && FirstOf(cache, id, false).value.KeyCount() > 0
            ==> FirstOf(cache, id, true) == FirstOf(cache, id, false)
  {
    if cache != [] {
      FirstIsKeyed(cache[..|cache| - 1], id);
    }
  }

  lemma {:induction false} FirstOfFinds(cache: seq<Row>, id: string, keyed: bool)
    ensures FirstOf(cache, id, keyed).Some? <==>
              exists row | row in cache :: row.Named() && row.id == id && (keyed ==> row.KeyCount() > 0)
  {
    if cache != [] {
      var front, last := cache[..|cache| - 1], cache[|cache| - 1];
      FirstOfFinds(front, id, keyed);
      assert cache == front + [last];
    }
  }

  ghost predicate HasKeyed(rows: seq<Row>, id: string) {
    exists row | row in rows :: row.Named() && row.id == id && row.KeyCount() > 0
  }

  /** Every named live row is still there, in its place, as its id's chosen row; what the cache adds comes after. */
  lemma LiveOrderIsKept(live: seq<Row>, cache: seq<Row>)
    ensures var merged := Rows(live, cache, Order(live, cache));
            && IdsOf(merged) == Order(live, cache)
            && IdsOf(live) <= IdsOf(merged)
            && forall id | id in IdsOf(merged)[|IdsOf(live)|..] :: id !in IdsOf(live)
  {
    RowsHaveTheirIds(live, cache, Order(live, cache));
    forall id | id in NewIds(live, cache) ensures id !in IdsOf(live) {
      NewIdsAreNew(live, cache, id);
    }
  }

  lemma {:induction false} RowsHaveTheirIds(live: seq<Row>, cache: seq<Row>, ids: seq<string>)
    requires forall id | id in ids :: Chosen(live, cache, id).Some?
    ensures IdsOf(Rows(live, cache, ids)) == ids
  {
    if ids != [] {
      var front, last := ids[..|ids| - 1], ids[|ids| - 1];
      RowsHaveTheirIds(live, cache, front);
      ChosenHasItsId(live, cache, last);
      assert Rows(live, cache, ids)[..|ids| - 1] == Rows(live, cache, front);
      assert ids == front + [last];
    }
  }

  /** Ids are added once, and only where the live file had none. */
  lemma {:induction false} NewIdsAreNew(live: seq<Row>, cache: seq<Row>, id: string)
    requires id in NewIds(live, cache)
    ensures id !in IdsOf(live) && multiset(NewIds(live, cache))[id] == 1
  {
    var front, last := cache[..|cache| - 1], cache[|cache| - 1];
    AllIdsAreChosen(live, front);
    if id in NewIds(live, front) {
      NewIdsAreNew(live, front, id);
    }
  }

  /** A live row that still has keys is never replaced: the id keeps its last live row, whatever the cache holds. */
  lemma KeyedLiveRowStays(live: seq<Row>, cache: seq<Row>, id: string)
    requires LastOf(live, id).Some?
    ensures LastOf(live, id).value.KeyCount() > 0 ==> Chosen(live, cache, id) == LastOf(live, id)
    ensures LastOf(live, id).value.KeyCount() == 0 && HasKeyed(cache, id) ==>
            Chosen(live, cache, id) == FirstOf(cache, id, true)
  {
    ChosenIs(live, cache, id);
    FirstOfFinds(cache, id, true);
  }

  /** An id ends with keys exactly when its last live row or some cached row has them. */
  lemma KeysSurviveIff(live: seq<Row>, cache: seq<Row>, id: string)
    requires Chosen(live, cache, id).Some?
    ensures Chosen(live, cache, id).value.KeyCount() > 0 <==>
              (LastOf(live, id).Some? && LastOf(live, id).value.KeyCount() > 0) || HasKeyed(cache, id)
  {
    ChosenIs(live, cache, id);
    FirstIsKeyed(cache, id);
    FirstOfFinds(cache, id, true);
  }

  /** An id loses its keys exactly when the live file repeats it, last without keys, and no cached row has any. */
  lemma KeysAreLostIff(live: seq<Row>, cache: seq<Row>, id: string)
    requires HasKeyed(live, id)
    ensures LastOf(live, id).Some? && Chosen(live, cache, id).Some?
    ensures Chosen(live, cache, id).value.KeyCount() == 0 <==>
            LastOf(live, id).value.KeyCount() == 0 && !HasKeyed(cache, id)
    ensures multiset(IdsOf(live))[id] == 1 ==> Chosen(live, cache, id).value.KeyCount() > 0
  {
    NamedIsListed(live, id);
    LastHasItsId(live, id);
    AllIdsAreChosen(live, cache);
    KeysSurviveIff(live, cache, id);
  }

  lemma {:induction false} NamedIsListed(live: seq<Row>, id: string)
    requires HasKeyed(live, id)
    ensures id in IdsOf(live)
    ensures multiset(IdsOf(live))[id] == 1 ==> LastOf(live, id).Some? && LastOf(live, id).value.KeyCount() > 0
  {
    var front, last := live[..|live| - 1], live[|live| - 1];
    assert live == front + [last];
    if HasKeyed(front, id) {
      NamedIsListed(front, id);
    } else {
      assert last.Named() && last.id == id && last.KeyCount() > 0;
    }
  }

  /** The live file repeats an id, and the row with the keys is the one that goes. */
  lemma RepeatedIdCanLoseKeys(id: string)
    requires id != ""
    ensures var live := [Dict(id, 1, 0), Dict(id, 0, 0)];
            HasKeyed(live, id) && Chosen(live, [], id) == Some(Dict(id, 0, 0))
  {
    var live := [Dict(id, 1, 0), Dict(id, 0, 0)];
    assert live[0] in live;
    assert live[..1] == [Dict(id, 1, 0)] && live[..1][..0] == [];
  }

  // ---------- merging again ----------

  /** Merging the result with the same cache changes nothing and recovers nothing. */
  lemma MergeIsIdempotent(live: seq<Row>, cache: seq<Row>)
    ensures var merged := Rows(live, cache, Order(live, cache));
            Rows(merged, cache, Order(merged, cache)) == merged && Report(merged, cache) == []
  {
    var ids := Order(live, cache);
    var merged := Rows(live, cache, ids);
    forall id ensures LastOf(merged, id) == Chosen(live, cache, id) {
      AllIdsAreChosen(live, cache);
      LastOfRows(live, cache, ids, id);
    }
    RowsHaveTheirIds(live, cache, ids);
    Settled(live, cache, merged, cache);
  }

  lemma {:induction false} LastOfRows(live: seq<Row>, cache: seq<Row>, ids: seq<string>, id: string)
    requires forall x | x in ids :: Chosen(live, cache, x).Some?
    ensures LastOf(Rows(live, cache, ids), id) == if id in ids then Chosen(live, cache, id) else None
  {
    if ids != [] {
      var front, last := ids[..|ids| - 1], ids[|ids| - 1];
      LastOfRows(live, cache, front, id);
      ChosenHasItsId(live, cache, last);
      assert Rows(live, cache, ids)[..|ids| - 1] == Rows(live, cache, front);
      assert ids == front + [last];
    }
  }

  /** Reading any first part of the cache again finds every id settled. */
  lemma {:induction false} Settled(live: seq<Row>, cache: seq<Row>, merged: seq<Row>, part: seq<Row>)
    requires part <= cache && forall id :: LastOf(merged, id) == Chosen(live, cache, id)
    ensures forall id :: Chosen(merged, part, id) == Chosen(live, cache, id)
    ensures NewIds(merged, part) == [] && Report(merged, part) == []
  {
    if part != [] {
      var front, last := part[..|part| - 1], part[|part| - 1];
      Settled(live, cache, merged, front);
      assert last == cache[|part| - 1] && last in cache;
      if last.Named() {
        ChosenIs(live, cache, last.id);
        FirstIsKeyed(cache, last.id);
        FirstOfFinds(cache, last.id, true);
        FirstOfFinds(cache, last.id, false);
      }
    }
  }

  // ---------- the report, by positions ----------

  predicate HasId(row: Row, id: string) {
    row.Named() && row.id == id
  }

  /** Row `m` is the last of its id. */
  ghost predicate LastWith(rows: seq<Row>, m: nat, id: string) {
    m < |rows| && HasId(rows[m], id) && forall j | m < j < |rows| :: !HasId(rows[j], id)
  }

  ghost predicate NoneWith(rows: seq<Row>, n: nat, id: string) {
    forall j | 0 <= j < n && j < |rows| :: !HasId(rows[j], id)
  }

  /** Cached row `k` is the first of an id the live file has not. */
  ghost predicate AddsAt(live: seq<Row>, cache: seq<Row>, k: nat) {
    && k < |cache| && cache[k].Named()
    && NoneWith(live, |live|, cache[k].id) && NoneWith(cache, k, cache[k].id)
  }

  /** Cached row `k` is the first with keys of an id that is there by then, its last live row without any. */
  ghost predicate RestoresAt(live: seq<Row>, cache: seq<Row>, k: nat) {
    && k < |cache| && cache[k].Named() && cache[k].KeyCount() > 0
    && (forall j | 0 <= j < k && HasId(cache[j], cache[k].id) :: cache[j].KeyCount() == 0)
    && (forall m: nat | LastWith(live, m, cache[k].id) :: live[m].KeyCount() == 0)
    && !(NoneWith(live, |live|, cache[k].id) && NoneWith(cache, k, cache[k].id))
  }

  /** `out` holds `value` of exactly the chosen positions below `n`, in order. */
  ghost predicate Picked<T>(out: seq<T>, n: nat, chosen: nat -> bool, value: nat -> T, at: seq<nat>) {
    && |at| == |out|
    && (forall i, j | 0 <= i < j < |at| :: at[i] < at[j])
    && (forall i | 0 <= i < |at| :: at[i] < n && out[i] == value(at[i]))
    && (forall k: nat | k < n :: k in at <==> chosen(k))
  }

  lemma PickedNext<T>(out: seq<T>, n: nat, chosen: nat -> bool, value: nat -> T, at: seq<nat>)
    requires Picked(out, n, chosen, value, at)
    ensures chosen(n) ==> Picked(out + [value(n)], n + 1, chosen, value, at + [n])
    ensures !chosen(n) ==> Picked(out, n + 1, chosen, value, at)
  {
    forall i | 0 <= i < |at| ensures at[i] < n && at[i] in at {
    }
    assert forall k: nat :: k in at + [n] <==> k in at || k == n;
  }

  lemma {:induction false} LastIsLast(rows: seq<Row>, id: string)
    ensures LastOf(rows, id) == None <==> NoneWith(rows, |rows|, id)
    ensures forall m: nat | LastWith(rows, m, id) :: LastOf(rows, id) == Some(rows[m])
    ensures LastOf(rows, id).Some? ==> exists m: nat :: LastWith(rows, m, id)
  {
    if rows != [] {
      var n := |rows| - 1;
      LastIsLast(rows[..n], id);
      if HasId(rows[n], id) {
        assert LastWith(rows, n, id);
      } else {
        assert forall m: nat :: LastWith(rows, m, id) <==> LastWith(rows[..n], m, id);
      }
    }
  }

  /** What is known of an id before cached row `k`. */
  lemma KnownBefore(live: seq<Row>, cache: seq<Row>, k: nat, id: string)
    requires k <= |cache|
    ensures var row := Chosen(live, cache[..k], id);
            && (row == None <==> NoneWith(live, |live|, id) && NoneWith(cache, k, id))
            && (row.Some? ==>
                  (row.value.KeyCount() == 0 <==>
                     && (forall m: nat | LastWith(live, m, id) :: live[m].KeyCount() == 0)
                     && (forall j | 0 <= j < k && HasId(cache[j], id) :: cache[j].KeyCount() == 0)))
  {
    var front := cache[..k];
    assert forall j | 0 <= j < k :: front[j] == cache[j];
    LastIsLast(live, id);
    ChosenIs(live, front, id);
    FirstOfFinds(front, id, false);
    FirstIsKeyed(front, id);
    assert FirstOf(front, id, false) == None <==> NoneWith(cache, k, id) by {
      CachedIds(cache, k, id);
    }
    if Chosen(live, front, id).Some? {
      KeysSurviveIff(live, front, id);
      CachedKeys(cache, k, id);
    }
  }

  lemma CachedIds(cache: seq<Row>, k: nat, id: string)
    requires k <= |cache|
    ensures (exists row | row in cache[..k] :: row.Named() && row.id == id) <==> !NoneWith(cache, k, id)
  {
    var front := cache[..k];
    if j :| 0 <= j < k && HasId(cache[j], id) {
      assert front[j] in front;
    }
  }

  lemma CachedKeys(cache: seq<Row>, k: nat, id: string)
    requires k <= |cache|
    ensures HasKeyed(cache[..k], id) <==> exists j :: 0 <= j < k && HasId(cache[j], id) && cache[j].KeyCount() > 0
  {
    var front := cache[..k];
    if j :| 0 <= j < k && HasId(cache[j], id) && cache[j].KeyCount() > 0 {
      assert front[j] in front;
    }
  }

  ghost function Adds(live: seq<Row>, cache: seq<Row>): nat -> bool {
    (k: nat) => AddsAt(live, cache, k)
  }

  ghost function Reports(live: seq<Row>, cache: seq<Row>): nat -> bool {
    (k: nat) => AddsAt(live, cache, k) || RestoresAt(live, cache, k)
  }

  ghost function IdAt(cache: seq<Row>): nat -> string {
    (k: nat) => if k < |cache| && cache[k].Named() then cache[k].id else ""
  }

  /** The line for cached row `k`: its id, and that credentials came back when the id was there before. */
  ghost function LineAt(live: seq<Row>, cache: seq<Row>): nat -> string {
    (k: nat) => if AddsAt(live, cache, k) then IdAt(cache)(k) else IdAt(cache)(k) + " (credentials restored)"
  }

  lemma ReportedAt(live: seq<Row>, cache: seq<Row>, k: nat)
    requires k < |cache| && cache[k].Named()
    ensures var row := Chosen(live, cache[..k], cache[k].id);
            && (AddsAt(live, cache, k) <==> row == None)
            && (RestoresAt(live, cache, k) <==>
                row.Some? && row.value.KeyCount() == 0 && cache[k].KeyCount() > 0)
  {
    KnownBefore(live, cache, k, cache[k].id);
  }

  lemma LineIs(live: seq<Row>, cache: seq<Row>, k: nat)
    requires k < |cache| && cache[k].Named()
    ensures AddsAt(live, cache, k) ==> LineAt(live, cache)(k) == cache[k].id
    ensures RestoresAt(live, cache, k) ==> !AddsAt(live, cache, k) && LineAt(live, cache)(k) == cache[k].id + RESTORED
  {
    assert RESTORED == " (credentials restored)" && IdAt(cache)(k) == cache[k].id;
    assert !AddsAt(live, cache, k) ==> LineAt(live, cache)(k) == IdAt(cache)(k) + " (credentials restored)";
  }

  lemma ReportNext(live: seq<Row>, cache: seq<Row>, k: nat)
    requires k < |cache|
    ensures var before := Report(live, cache[..k]);
            Report(live, cache[..k + 1]) == if Reports(live, cache)(k) then before + [LineAt(live, cache)(k)]
              else before
    ensures var before := NewIds(live, cache[..k]);
            NewIds(live, cache[..k + 1]) == if Adds(live, cache)(k) then before + [IdAt(cache)(k)] else before
  {
    var front, row := cache[..k], cache[k];
    assert cache[..k + 1][..k] == front && cache[..k + 1][k] == row;
    if row.Named() {
      ReportedAt(live, cache, k);
      LineIs(live, cache, k);
    }
  }

  /** The report has one line for each cached row that adds an id or brings its keys back, in their order. */
  lemma {:induction false} ReportByPosition(live: seq<Row>, cache: seq<Row>, n: nat) returns (at: seq<nat>)
    requires n <= |cache|
    ensures Picked(Report(live, cache[..n]), n, Reports(live, cache), LineAt(live, cache), at)
  {
    at := [];
    if n > 0 {
      at := ReportByPosition(live, cache, n - 1);
      ReportNext(live, cache, n - 1);
      PickedNext(Report(live, cache[..n - 1]), n - 1, Reports(live, cache), LineAt(live, cache), at);
      if Reports(live, cache)(n - 1) {
        at := at + [n - 1];
      }
    }
  }

  /** So do the ids added behind the live ones. */
  lemma {:induction false} NewIdsByPosition(live: seq<Row>, cache: seq<Row>, n: nat) returns (at: seq<nat>)
    requires n <= |cache|
    ensures Picked(NewIds(live, cache[..n]), n, Adds(live, cache), IdAt(cache), at)
  {
    at := [];
    if n > 0 {
      at := NewIdsByPosition(live, cache, n - 1);
      ReportNext(live, cache, n - 1);
      PickedNext(NewIds(live, cache[..n - 1]), n - 1, Adds(live, cache), IdAt(cache), at);
      if Adds(live, cache)(n - 1) {
        at := at + [n - 1];
      }
    }
  }
}
