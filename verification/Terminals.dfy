/**
 Background terminals of ONE app instance: the locked registry of rows with their
 child handles, and the shared folder of row files that all instances write.
 Each method is one critical section (or one sequential call) of the original.
 */
module Terminals {
  import opened Wrappers
  import opened Sorting

  type Id = string
  type Pid = nat

  /** What is mirrored to disk and shown to the user. */
  datatype Info = Info(
    id: Id, chat: string, command: string, startedAt: nat,
    running: bool, exitCode: Option<int>, pid: Pid)

  /** A registry row: `child` says whether the process handle is still held. */
  datatype Row = Row(info: Info, child: bool)

  type Rows = map<Id, Row>

  const KEEP_EXITED := 10
  const DAY_MS := 24 * 60 * 60 * 1000

  /** The three answers of a non-blocking wait on a child. */
  datatype Waited = Exited(code: Option<int>) | StillRunning | WaitFailed

  /** Rows are filed under their own id, and `running` means exactly that the handle is kept. */
  ghost predicate Consistent(rows: Rows) {
    forall id | id in rows :: rows[id].info.id == id && (rows[id].info.running <==> rows[id].child)
  }

  // ---------- pruning exited rows ----------

  function ExitedIds(rows: Rows): set<Id> {
    set id | id in rows && !rows[id].info.running
  }

  /** Nothing running is dropped, at most KEEP_EXITED exited rows stay, and they are the newest. */
  ghost predicate PrunedTo(before: Rows, after: Rows) {
    && after.Keys <= before.Keys
    && (forall id | id in after :: after[id] == before[id])
    && (forall id | id in before && before[id].info.running :: id in after)
    && |ExitedIds(after)| == (if |ExitedIds(before)| <= KEEP_EXITED then |ExitedIds(before)| else KEEP_EXITED)
    && (forall gone, kept | gone in before && gone !in after && kept in ExitedIds(after) ::
          before[gone].info.startedAt <= before[kept].info.startedAt)
  }

  function OlderFirst(rows: Rows): (Id, Id) -> bool {
    (a, b) => (if a in rows then rows[a].info.startedAt else 0) <= (if b in rows then rows[b].info.startedAt else 0)
  }

  // ---------- the watcher's look at its child ----------

  /** The row as the watcher leaves it, and the row it must publish (none while the child runs). */
  function Observed(row: Row, waited: Waited): (Row, Option<Info>) {
    match waited
    case StillRunning => (row, None)
    case Exited(code) =>
      var done := row.info.(running := false, exitCode := code);
      (Row(done, false), Some(done))
    case WaitFailed =>
      var done := row.info.(running := false, exitCode := Some(-1));
      (Row(done, false), Some(done))
  }

  // ---------- healing foreign row files ----------

  /** A foreign row as `list` reports it: a stale one is settled, keeping any exit code it had. */
  function Healed(info: Info, alive: set<Pid>): Info {
    if info.running && info.pid !in alive
    then info.(running := false, exitCode := if info.exitCode.Some? then info.exitCode else Some(-1))
    else info
  }

  /** Which row files one `list` call rewrites. */
  ghost predicate Foreign(files: map<Id, Info>, rows: Rows, chat: string, id: Id) {
    id in files && id !in rows && (chat == "" || files[id].chat == chat)
  }

  /** Running rows first, newest first. */
  predicate ListedBefore(a: Info, b: Info) {
    if a.running == b.running then a.startedAt >= b.startedAt else a.running
  }

  lemma ListedBeforeIsTotal()
    ensures TotalPreorder(ListedBefore)
  {
  }

  /** The shared folder of row files: `files[id]` is what the last write left. */
  class RowFiles {
    var files: map<Id, Info>

    ghost predicate Filed()
      reads this
    {
      forall id | id in files :: files[id].id == id
    }

    method Write(info: Info)
      modifies this
      ensures files == old(files)[info.id := info]
    {
      files := files[info.id := info];
    }

    /** Delete the files of terminals that stopped and were started over a day ago. */
    method PruneOld(now: int)
      requires Filed()
      modifies this
      ensures Filed()
      ensures files == map id | id in old(files)
                         && (old(files)[id].running || old(files)[id].startedAt >= now - DAY_MS) :: old(files)[id]
    {
      var cutoff := now - DAY_MS;
      ghost var all := files;
      var seen := files;
      var todo := seen.Keys;
      while todo != {}
        invariant seen == all && todo <= all.Keys
        invariant files == map id | id in all
                             && (id in todo || all[id].running || all[id].startedAt >= cutoff) :: all[id]
      {
        var id :| id in todo;
        todo := todo - {id};
        var info := seen[id];
        if !info.running && info.startedAt < cutoff {
          files := files - {info.id};
        }
      }
    }
  }

  /** The in-memory registry; every method body runs under its lock. */
  class Registry {
    var rows: Rows

    ghost predicate Valid()
      reads this
    {
      Consistent(rows)
    }

    constructor ()
      ensures Valid() && rows == map[]
    {
      rows := map[];
    }

    method Insert(info: Info)
      requires Valid() && info.running
      modifies this
      ensures Valid() && rows == old(rows)[info.id := Row(info, true)]
    {
      rows := rows[info.id := Row(info, true)];
    }

    method PruneExited()
      requires Valid()
      modifies this
      ensures Valid() && PrunedTo(old(rows), rows)
    {
      var exited := ExitedRows();
      ListsCount(exited, ExitedIds(rows));
      if |exited| <= KEEP_EXITED {
        return;
      }
      var oldest := Sort(OlderFirst(rows), exited);
      SortSorted(OlderFirst(rows), exited);
      SameMultiset(exited, oldest);
      ghost var before := rows;
      Remove(oldest[..|oldest| - KEEP_EXITED]);
      KeptNewest(before, rows, oldest, |oldest| - KEEP_EXITED);
    }

    /** The exited rows, in whatever order the hash map yields them. */
    method ExitedRows() returns (exited: seq<Id>)
      ensures Lists(exited, ExitedIds(rows))
    {
      exited := [];
      var todo := rows.Keys;
      while todo != {}
        invariant todo <= rows.Keys
        invariant Lists(exited, ExitedIds(rows) - todo)
      {
        var id :| id in todo;
        todo := todo - {id};
        if !rows[id].info.running {
          exited := exited + [id];
        }
      }
    }

    method Remove(ids: seq<Id>)
      modifies this
      ensures rows == map id | id in old(rows) && id !in ids :: old(rows)[id]
    {
      ghost var before := rows;
      var i := 0;
      while i < |ids|
        invariant 0 <= i <= |ids|
        invariant rows == map id | id in before && id !in ids[..i] :: before[id]
      {
        rows := rows - {ids[i]};
        i := i + 1;
      }
      assert ids[..i] == ids;
    }

    /** One look of the watcher at its child; `None` when the row or the handle is gone. */
    method Tick(id: Id, waited: Waited) returns (publish: Option<Info>)
      requires Valid()
      modifies this
      ensures Valid()
      ensures !(id in old(rows) && old(rows)[id].child) || waited == StillRunning ==>
                rows == old(rows) && publish == None
      ensures id in old(rows) && old(rows)[id].child && waited != StillRunning ==>
                var was := old(rows)[id].info;
                var code := if waited.Exited? then waited.code else Some(-1);
                && publish == Some(Info(was.id, was.chat, was.command, was.startedAt, false, code, was.pid))
                && rows == old(rows)[id := Row(publish.value, false)]
    {
      publish := None;
      if id !in rows {
        return;
      }
      var row := rows[id];
      if !row.child {
        return;
      }
      match waited {
        case Exited(code) =>
          row := Row(row.info.(running := false, exitCode := code), false);
          publish := Some(row.info);
        case StillRunning =>
        case WaitFailed =>
          row := Row(row.info.(running := false, exitCode := Some(-1)), false);
          publish := Some(row.info);
      }
      rows := rows[id := row];
    }

    /** The signal that `stop`, and later its escalation, send for `id`: none once the exit is reaped. */
    method SignalFor(id: Id) returns (pid: Option<Pid>)
      requires Valid()
      ensures pid == if id in rows && rows[id].child then Some(rows[id].info.pid) else None
    {
      pid := None;
      if id in rows {
        if rows[id].info.running {
          pid := Some(rows[id].info.pid);
        }
      }
    }

    /**
     Every terminal of `chat` (all for the empty chat): own rows as they are, foreign row files
     with stale ones settled on disk first. `alive` is what probing a pid answers during the call.
     */
    method List(disk: RowFiles, chat: string, alive: set<Pid>) returns (listed: seq<Info>)
      requires Valid() && disk.Filed()
      modifies disk
      ensures disk.Filed() && disk.files.Keys == old(disk.files).Keys
      ensures forall id | id in disk.files && !Foreign(old(disk.files), rows, chat, id) ::
              disk.files[id] == old(disk.files)[id]
      ensures forall id | id in disk.files && Foreign(old(disk.files), rows, chat, id) ::
                var was := old(disk.files)[id];
                disk.files[id] ==
                if was.running && was.pid !in alive
                then Info(was.id, was.chat, was.command, was.startedAt, false,
                          if was.exitCode.Some? then was.exitCode else Some(-1), was.pid)
                else was
      ensures forall i, j | 0 <= i < j < |listed| ::
                && listed[i].id != listed[j].id && (listed[j].running ==> listed[i].running)
                && (listed[i].running == listed[j].running ==> listed[i].startedAt >= listed[j].startedAt)
      ensures forall info :: info in listed <==>
                || (info.id in rows && info == rows[info.id].info && (chat == "" || info.chat == chat))
                || (Foreign(old(disk.files), rows, chat, info.id) && info == disk.files[info.id])
    {
      var found := OwnRows(chat);
      ghost var own := found;
      var foreign := HealForeign(disk, rows, chat, alive);
      found := found + foreign;
      listed := InListOrder(found);
    }

    method OwnRows(chat: string) returns (found: map<Id, Info>)
      ensures found == map id | id in rows && (chat == "" || rows[id].info.chat == chat) :: rows[id].info
    {
      found := map[];
      var todo := rows.Keys;
      while todo != {}
        invariant todo <= rows.Keys
        invariant found == map id | id in rows && id !in todo
                                && (chat == "" || rows[id].info.chat == chat) :: rows[id].info
      {
        var id :| id in todo;
        todo := todo - {id};
        if chat == "" || rows[id].info.chat == chat {
          found := found[id := rows[id].info];
        }
      }
    }
  }

  /** The foreign half of `list`: settle the stale row files and return every foreign row. */
  method HealForeign(disk: RowFiles, rows: Rows, chat: string, alive: set<Pid>) returns (found: map<Id, Info>)
    requires disk.Filed()
    modifies disk
    ensures disk.Filed() && disk.files.Keys == old(disk.files).Keys
    ensures forall id | id in disk.files && !Foreign(old(disk.files), rows, chat, id) ::
            disk.files[id] == old(disk.files)[id]
    ensures forall id | id in disk.files && Foreign(old(disk.files), rows, chat, id) ::
              var was := old(disk.files)[id];
              disk.files[id] ==
              if was.running && was.pid !in alive
              then Info(was.id, was.chat, was.command, was.startedAt, false,
                        if was.exitCode.Some? then was.exitCode else Some(-1), was.pid)
              else was
    ensures forall id :: id in found <==> Foreign(old(disk.files), rows, chat, id)
    ensures forall id | id in found :: id in disk.files && found[id] == disk.files[id]
  {
    found := map[];
    var seen := disk.files;
    var todo := seen.Keys - rows.Keys;
    while todo != {}
      invariant seen == old(disk.files) && todo <= seen.Keys - rows.Keys
      invariant HealedSoFar(seen, rows, chat, alive, todo, disk.files, found)
    {
      var id :| id in todo;
      todo := todo - {id};
      var info := seen[id];
      ghost var files0, found0 := disk.files, found;
      if chat == "" || info.chat == chat {
        if info.running && info.pid !in alive {
          info := info.(running := false, exitCode := if info.exitCode.Some? then info.exitCode else Some(-1));
          disk.Write(info);
        }
        found := found[id := info];
      }
      HealedOneMore(seen, rows, chat, alive, todo, id, files0, found0, disk.files, found);
    }
  }

  /** `files` and `found` once every foreign row but those of `todo` was looked at. */
  ghost predicate HealedSoFar(seen: map<Id, Info>, rows: Rows, chat: string, alive: set<Pid>, todo: set<Id>,
                              files: map<Id, Info>, found: map<Id, Info>) {
    && files.Keys == seen.Keys
    && (forall id | id in seen ::
          files[id] == if Foreign(seen, rows, chat, id) && id !in todo then Healed(seen[id], alive) else seen[id])
    && (forall id :: id in found <==> Foreign(seen, rows, chat, id) && id !in todo)
    && (forall id | id in found :: id in files && found[id] == files[id])
  }

  lemma HealedOneMore(seen: map<Id, Info>, rows: Rows, chat: string, alive: set<Pid>, todo: set<Id>, id: Id,
                      files0: map<Id, Info>, found0: map<Id, Info>, files: map<Id, Info>, found: map<Id, Info>)
    requires id in seen && id !in rows && id !in todo && seen[id].id == id
    requires HealedSoFar(seen, rows, chat, alive, todo + {id}, files0, found0)
    requires files == if Foreign(seen, rows, chat, id) then files0[id := Healed(seen[id], alive)] else files0
    requires found == if Foreign(seen, rows, chat, id) then found0[id := Healed(seen[id], alive)] else found0
    ensures HealedSoFar(seen, rows, chat, alive, todo, files, found)
  {
  }

  lemma KeptNewest(before: Rows, after: Rows, oldest: seq<Id>, dropCount: nat)
    requires dropCount + KEEP_EXITED == |oldest|
    requires Lists(oldest, ExitedIds(before))
    requires Sorted(OlderFirst(before), oldest)
    requires after == map id | id in before && id !in oldest[..dropCount] :: before[id]
    ensures PrunedTo(before, after)
  {
    var newest := oldest[dropCount..];
    assert forall id | id in oldest[..dropCount] :: id in oldest;
    assert forall id | id in newest :: id in oldest && id !in oldest[..dropCount];
    forall id ensures id in newest <==> id in ExitedIds(after) {
      if id in ExitedIds(after) {
        assert id in oldest;
        var j :| 0 <= j < |oldest| && oldest[j] == id;
        assert oldest[j] == newest[j - dropCount];
      }
    }
    ListsCount(newest, ExitedIds(after));
    ListsCount(oldest, ExitedIds(before));
    forall gone, kept | gone in before && gone !in after && kept in ExitedIds(after)
      ensures before[gone].info.startedAt <= before[kept].info.startedAt
    {
      var i :| 0 <= i < dropCount && oldest[i] == gone;
      var j :| 0 <= j < |newest| && newest[j] == kept;
      assert OlderFirst(before)(oldest[i], oldest[dropCount + j]);
    }
  }

  method InListOrder(found: map<Id, Info>) returns (listed: seq<Info>)
    requires forall id | id in found :: found[id].id == id
    ensures Sorted(ListedBefore, listed)
    ensures forall i, j | 0 <= i < j < |listed| :: listed[i].id != listed[j].id
    ensures forall info :: info in listed <==> info.id in found && found[info.id] == info
  {
    var unsorted := ValuesOf(found);
    listed := Sort(ListedBefore, unsorted);
    ListedBeforeIsTotal();
    SortSorted(ListedBefore, unsorted);
    SameMultiset(unsorted, listed);
    forall i, j | 0 <= i < j < |listed| ensures listed[i].id != listed[j].id {
      assert listed[i] in unsorted && listed[j] in unsorted;
    }
  }

  /** The values of a hash map, in whatever order it yields them. */
  method ValuesOf(found: map<Id, Info>) returns (all: seq<Info>)
    requires forall id | id in found :: found[id].id == id
    ensures Distinct(all)
    ensures forall info :: info in all <==> info.id in found && found[info.id] == info
  {
    all := [];
    var todo := found.Keys;
    while todo != {}
      invariant todo <= found.Keys
      invariant Distinct(all)
      invariant forall info :: info in all <==> info.id in found && info.id !in todo && found[info.id] == info
    {
      var id :| id in todo;
      todo := todo - {id};
      all := all + [found[id]];
    }
  }
}
