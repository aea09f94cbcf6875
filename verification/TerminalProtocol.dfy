/**
 Any number of app instances, each with its own registry, sharing one folder of row
 files and one process table. Every event below is one atomic step: a critical section
 under one registry lock, one row-file read, write or deletion, one probe of a pid, or
 one signal. Pids may be reused as soon as a process is reaped, a child's wait may
 fail, and an instance may die at any step.
 */
module TerminalProtocol {
  import opened Wrappers
  import opened Terminals

  type Inst = nat

  datatype Fate = Alive | Zombie(code: Option<int>) | Reaped

  /** Where the thread that spawned a terminal, and then its watcher, has got to. */
  datatype Thread =
    | Launched                      // process started, exited rows not pruned yet
    | Ready                         // pruned, row not inserted yet
    | Registered                    // row inserted, row file not written yet
    | Sweeping(doomed: set<Id>)     // row file written, deleting day-old row files
    | Watching
    | Publishing(row: Info)         // exit reaped, row file not rewritten yet
    | Done

  datatype Terminal = Terminal(owner: Inst, start: Info, fate: Fate, waitFailed: bool, thread: Thread)

  /** Short-lived work besides the spawn-and-watch threads. */
  datatype Job =
    | Escalate(id: Id)
    | HealRow(row: Info)            // a `list` read this foreign row
    | StopForeign(row: Info)        // a foreign stop read this row
    | TermForeign(row: Info)        // ... and found its pid alive
    | Grace(row: Info)              // ... and sent TERM
    | KillForeign(row: Info)        // ... and found its pid still alive
    | Poll(row: Info, left: nat)    // ... and waits for the pid to disappear
    | Settle(row: Info)             // found the pid gone, about to write the row as stopped

  datatype Helper = Helper(owner: Inst, job: Job)

  /** A signal that was sent: for which terminal, from whose side, and whom it reached. */
  datatype Signal = Signal(id: Id, local: bool, hits: set<Id>, stranger: bool)

  datatype World = World(
    now: nat,
    terms: map<Id, Terminal>,
    strangers: set<Pid>,            // pids of processes no terminal spawned
    usedPids: set<Pid>,
    reused: set<Pid>,               // pids that were handed out more than once
    disk: map<Id, Info>,
    insts: map<Inst, Rows>, gone: set<Inst>,
    helpers: map<nat, Helper>,
    signals: seq<Signal>)

  datatype Event =
    | StartInstance(inst: Inst)
    | Crash(inst: Inst)
    | Advance(to: nat)
    | StrangerStart(pid: Pid)
    | StrangerEnd(pid: Pid)
    | Launch(inst: Inst, info: Info)
    | Exit(id: Id, code: Option<int>)
    | InitReap(id: Id)
    | Prune(id: Id, kept: Rows)
    | Register(id: Id)
    | PublishStart(id: Id)
    | Condemn(id: Id, victim: Id)
    | Sweep(id: Id, victim: Id)
    | BeginWatch(id: Id)
    | Tick(id: Id, waited: Waited)
    | PublishExit(id: Id)
    | StopLocal(inst: Inst, id: Id, helper: nat)
    | ReadToStop(inst: Inst, id: Id, helper: nat)
    | ReadToList(inst: Inst, id: Id, helper: nat)
    | HelperStep(helper: nat)

  const POLLS := 15

  // ---------- the process table ----------

  ghost function Holders(w: World, pid: Pid): set<Id> {
    set id | id in w.terms && w.terms[id].start.pid == pid && !w.terms[id].fate.Reaped?
  }

  /** What probing a pid answers: an unreaped process, zombies included, still holds it. */
  ghost predicate PidAlive(w: World, pid: Pid) {
    pid in w.strangers || Holders(w, pid) != {}
  }

  ghost function Sent(w: World, id: Id, pid: Pid, local: bool): World {
    w.(signals := w.signals + [Signal(id, local, Holders(w, pid), pid in w.strangers)])
  }

  // ---------- enabled events ----------

  ghost predicate HasThread(w: World, id: Id) {
    id in w.terms && w.terms[id].owner in w.insts && !w.terms[id].thread.Done?
  }

  ghost predicate FreshHelper(w: World, inst: Inst, helper: nat) {
    inst in w.insts && helper !in w.helpers
  }

  /** The answer a wait gives: an exited child is reported exactly once it is a zombie. */
  ghost predicate WaitAnswers(fate: Fate, waited: Waited) {
    match waited
    case Exited(code) => fate == Zombie(code)
    case StillRunning => fate.Alive?
    case WaitFailed => true
  }

  ghost predicate Enabled(w: World, e: Event) {
    match e
    case StartInstance(inst) => inst !in w.insts && inst !in w.gone
    case Crash(inst) => inst in w.insts
    case Advance(to) => w.now <= to
    case StrangerStart(pid) => !PidAlive(w, pid)
    case StrangerEnd(pid) => pid in w.strangers
    case Launch(inst, info) =>
      && inst in w.insts && info.id !in w.terms && !PidAlive(w, info.pid)
      && info.running && info.exitCode == None && info.startedAt == w.now
    case Exit(id, code) => id in w.terms && w.terms[id].fate.Alive?
    case InitReap(id) => id in w.terms && w.terms[id].fate.Zombie? && w.terms[id].owner in w.gone
    case Prune(id, kept) =>
      HasThread(w, id) && w.terms[id].thread.Launched? && PrunedTo(w.insts[w.terms[id].owner], kept)
    case Register(id) => HasThread(w, id) && w.terms[id].thread.Ready?
    case PublishStart(id) => HasThread(w, id) && w.terms[id].thread.Registered?
    case Condemn(id, victim) =>
      && HasThread(w, id) && w.terms[id].thread.Sweeping?
      && victim in w.disk && !w.disk[victim].running && w.disk[victim].startedAt < w.now - DAY_MS
    case Sweep(id, victim) =>
      HasThread(w, id) && w.terms[id].thread.Sweeping? && victim in w.terms[id].thread.doomed
    case BeginWatch(id) => HasThread(w, id) && w.terms[id].thread.Sweeping?
    case Tick(id, waited) =>
      && HasThread(w, id) && w.terms[id].thread.Watching?
      && (var rows := w.insts[w.terms[id].owner];
          id in rows && rows[id].child ==> WaitAnswers(w.terms[id].fate, waited))
    case PublishExit(id) => HasThread(w, id) && w.terms[id].thread.Publishing?
    case StopLocal(inst, id, helper) =>
      FreshHelper(w, inst, helper) && id in w.insts[inst] && w.insts[inst][id].info.running
    case ReadToStop(inst, id, helper) => FreshHelper(w, inst, helper) && id in w.disk
    case ReadToList(inst, id, helper) =>
      FreshHelper(w, inst, helper) && id in w.disk && id !in w.insts[inst]
    case HelperStep(helper) => helper in w.helpers && w.helpers[helper].owner in w.insts
  }

  // ---------- their effect ----------

  ghost function WithThread(w: World, id: Id, thread: Thread): World
    requires id in w.terms
  {
    w.(terms := w.terms[id := w.terms[id].(thread := thread)])
  }

  ghost function WithFate(w: World, id: Id, fate: Fate): World
    requires id in w.terms
  {
    w.(terms := w.terms[id := w.terms[id].(fate := fate)])
  }

  ghost function WithHelper(w: World, inst: Inst, helper: nat, job: Job): World {
    w.(helpers := w.helpers[helper := Helper(inst, job)])
  }

  /** The instance's registry, helpers and threads vanish; its children live on. */
  ghost function Crashed(w: World, inst: Inst): World {
    w.(insts := w.insts - {inst},
       gone := w.gone + {inst},
       helpers := map h | h in w.helpers && w.helpers[h].owner != inst :: w.helpers[h],
       terms := map id | id in w.terms ::
         if w.terms[id].owner == inst then w.terms[id].(thread := Done) else w.terms[id])
  }

  /** One look of the watcher, on the row the registry holds. */
  ghost function Ticked(w: World, id: Id, waited: Waited): World
    requires HasThread(w, id)
  {
    var t := w.terms[id];
    var rows := w.insts[t.owner];
    if id !in rows || !rows[id].child then WithThread(w, id, Done)
    else
      var (row, publish) := Observed(rows[id], waited);
      match publish
      case None => w
      case Some(done) =>
        w.(insts := w.insts[t.owner := rows[id := row]],
           terms := w.terms[id := t.(
             fate := if waited.Exited? then Reaped else t.fate,
             waitFailed := t.waitFailed || waited.WaitFailed?,
             thread := Publishing(done))])
  }

  ghost function Helped(w: World, h: nat): World
    requires h in w.helpers && w.helpers[h].owner in w.insts
  {
    var inst := w.helpers[h].owner;
    var finished := w.(helpers := w.helpers - {h});
    match w.helpers[h].job
    case Escalate(id) =>
      var rows := w.insts[inst];
      if id in rows && rows[id].info.running then Sent(finished, id, rows[id].info.pid, true) else finished
    case HealRow(row) =>
      if row.running && !PidAlive(w, row.pid) then WithHelper(w, inst, h, Settle(Healed(row, {}))) else finished
    case StopForeign(row) =>
      if row.running && PidAlive(w, row.pid) then WithHelper(w, inst, h, TermForeign(row)) else finished
    case TermForeign(row) => Sent(WithHelper(w, inst, h, Grace(row)), row.id, row.pid, false)
    case Grace(row) =>
      WithHelper(w, inst, h, if PidAlive(w, row.pid) then KillForeign(row) else Poll(row, POLLS))
    case KillForeign(row) => Sent(WithHelper(w, inst, h, Poll(row, POLLS)), row.id, row.pid, false)
    case Poll(row, left) =>
      if left == 0 then finished
      else if !PidAlive(w, row.pid) then WithHelper(w, inst, h, Settle(row.(running := false)))
      else WithHelper(w, inst, h, Poll(row, left - 1))
    case Settle(row) => finished.(disk := w.disk[row.id := row])
  }

  ghost function Apply(w: World, e: Event): World
    requires Enabled(w, e)
  {
    match e
    case StartInstance(inst) => w.(insts := w.insts[inst := map[]])
    case Crash(inst) => Crashed(w, inst)
    case Advance(to) => w.(now := to)
    case StrangerStart(pid) =>
      w.(strangers := w.strangers + {pid}, usedPids := w.usedPids + {pid},
         reused := if pid in w.usedPids then w.reused + {pid} else w.reused)
    case StrangerEnd(pid) => w.(strangers := w.strangers - {pid})
    case Launch(inst, info) =>
      w.(terms := w.terms[info.id := Terminal(inst, info, Alive, false, Launched)],
         usedPids := w.usedPids + {info.pid},
         reused := if info.pid in w.usedPids then w.reused + {info.pid} else w.reused)
    case Exit(id, code) => WithFate(w, id, Zombie(code))
    case InitReap(id) => WithFate(w, id, Reaped)
    case Prune(id, kept) => WithThread(w.(insts := w.insts[w.terms[id].owner := kept]), id, Ready)
    case Register(id) =>
      var t := w.terms[id];
      WithThread(w.(insts := w.insts[t.owner := w.insts[t.owner][id := Row(t.start, true)]]), id, Registered)
    case PublishStart(id) => WithThread(w.(disk := w.disk[id := w.terms[id].start]), id, Sweeping({}))
    case Condemn(id, victim) => WithThread(w, id, Sweeping(w.terms[id].thread.doomed + {victim}))
    case Sweep(id, victim) =>
      WithThread(w.(disk := w.disk - {victim}), id, Sweeping(w.terms[id].thread.doomed - {victim}))
    case BeginWatch(id) => WithThread(w, id, Watching)
    case Tick(id, waited) => Ticked(w, id, waited)
    case PublishExit(id) => WithThread(w.(disk := w.disk[id := w.terms[id].thread.row]), id, Done)
    case StopLocal(inst, id, helper) =>
      Sent(WithHelper(w, inst, helper, Escalate(id)), id, w.insts[inst][id].info.pid, true)
    case ReadToStop(inst, id, helper) => WithHelper(w, inst, helper, StopForeign(w.disk[id]))
    case ReadToList(inst, id, helper) => WithHelper(w, inst, helper, HealRow(w.disk[id]))
    case HelperStep(helper) => Helped(w, helper)
  }

  // ---------- the invariant ----------

  ghost predicate Starting(t: Terminal) {
    t.thread.Launched? || t.thread.Ready? || t.thread.Registered?
  }

  /** The owner (or init) reaped the process, or gave up on it when a wait failed. */
  ghost predicate Ended(t: Terminal) {
    t.fate.Reaped? || t.waitFailed
  }

  ghost predicate RunningOnDisk(w: World, id: Id) {
    id in w.disk && w.disk[id].running
  }

  /** The row file of `id` says, and can only ever say, that it stopped. */
  ghost predicate Settled(w: World, id: Id) {
    id in w.terms && !Starting(w.terms[id]) && !RunningOnDisk(w, id)
  }

  ghost predicate TermOk(w: World, id: Id)
    requires id in w.terms
  {
    var t := w.terms[id];
    && t.start.id == id && t.start.running && t.start.pid in w.usedPids
    && (t.owner in w.insts || t.owner in w.gone)
    && (!t.thread.Done? ==> t.owner in w.insts)
    && (Starting(t) ==> id !in w.disk && !Ended(t))
    && (t.thread.Launched? || t.thread.Ready? ==> id !in w.insts[t.owner])
    && (t.thread.Registered? || t.thread.Sweeping? || t.thread.Watching? ==>
          !Ended(t) && id in w.insts[t.owner] && w.insts[t.owner][id] == Row(t.start, true))
    && (t.thread.Sweeping? || t.thread.Watching? ==> id in w.disk && w.disk[id] == t.start)
    && (t.thread.Sweeping? ==> forall victim | victim in t.thread.doomed :: Settled(w, victim))
    && (t.thread.Publishing? ==>
          Ended(t) && !t.thread.row.running && t.thread.row.id == id && t.thread.row.pid == t.start.pid)
    && (t.thread.Done? && t.owner in w.insts ==> Ended(t) && !RunningOnDisk(w, id))
  }

  ghost predicate RowOk(w: World, inst: Inst, id: Id)
    requires inst in w.insts && id in w.insts[inst]
  {
    var row := w.insts[inst][id];
    && id in w.terms && w.terms[id].owner == inst && row.info.id == id && row.info.pid == w.terms[id].start.pid
    && (w.terms[id].thread.Publishing? || w.terms[id].thread.Done? ==> !row.info.running && !row.child)
  }

  ghost predicate SnapshotOk(w: World, row: Info) {
    row.id in w.terms && !Starting(w.terms[row.id]) && row.pid == w.terms[row.id].start.pid
  }

  ghost predicate DiskOk(w: World, id: Id)
    requires id in w.disk
  {
    && w.disk[id].id == id && SnapshotOk(w, w.disk[id])
    && (!w.disk[id].running ==> Ended(w.terms[id]))
  }

  ghost predicate HelperOk(w: World, h: nat)
    requires h in w.helpers
  {
    && w.helpers[h].owner in w.insts
    && match w.helpers[h].job
       case Escalate(id) => id in w.terms
       case Settle(row) => SnapshotOk(w, row) && !row.running && Ended(w.terms[row.id])
       case HealRow(row) => SnapshotOk(w, row)
       case StopForeign(row) => SnapshotOk(w, row)
       case TermForeign(row) => SnapshotOk(w, row)
       case Grace(row) => SnapshotOk(w, row)
       case KillForeign(row) => SnapshotOk(w, row)
       case Poll(row, _) => SnapshotOk(w, row)
  }

  ghost predicate PidsOk(w: World) {
    && w.strangers <= w.usedPids
    && (forall a, b | a in w.terms && b in w.terms && a != b && w.terms[a].start.pid == w.terms[b].start.pid ::
          w.terms[a].start.pid in w.reused && (w.terms[a].fate.Reaped? || w.terms[b].fate.Reaped?))
    && (forall id | id in w.terms && w.terms[id].start.pid in w.strangers ::
          w.terms[id].start.pid in w.reused && w.terms[id].fate.Reaped?)
  }

  /** A local signal reaches its terminal; any that does reaches nothing else; and only a reused pid can mislead one. */
  ghost predicate SignalOk(w: World, s: Signal) {
    && s.id in w.terms
    && (s.local ==> s.id in s.hits)
    && (s.id in s.hits || w.terms[s.id].start.pid !in w.reused ==> s.hits <= {s.id} && !s.stranger)
  }

  ghost predicate Inv(w: World) {
    && w.insts.Keys !! w.gone
    && (forall id | id in w.terms :: TermOk(w, id))
    && (forall inst, id | inst in w.insts && id in w.insts[inst] :: RowOk(w, inst, id))
    && (forall id | id in w.disk :: DiskOk(w, id))
    && (forall h | h in w.helpers :: HelperOk(w, h))
    && PidsOk(w)
    && (forall s | s in w.signals :: SignalOk(w, s))
  }

  // ---------- every step keeps it ----------

  /** How a terminal may change while it is the one a step works on. */
  ghost predicate Advances(t: Terminal, t': Terminal) {
    && t'.owner == t.owner && t'.start == t.start
    && (!Starting(t) ==> !Starting(t'))
    && (Ended(t) ==> Ended(t'))
    && (t.fate.Reaped? ==> t'.fate.Reaped?)
  }

  /** What happens meanwhile to any other terminal: only an exited row or a stopped row file can go. */
  ghost predicate Untouched(w: World, w': World, x: Id)
    requires w'.insts.Keys == w.insts.Keys
  {
    && (x in w'.terms <==> x in w.terms) && (x in w.terms ==> w'.terms[x] == w.terms[x])
    && (x in w'.disk ==> x in w.disk && w'.disk[x] == w.disk[x])
    && (RunningOnDisk(w, x) ==> x in w'.disk)
    && (forall inst | inst in w.insts ::
          && (x in w'.insts[inst] ==> x in w.insts[inst] && w'.insts[inst][x] == w.insts[inst][x])
          && (x in w.insts[inst] && w.insts[inst][x].info.running ==> x in w'.insts[inst]))
  }

  /** `w'` follows `w` by a step that works on terminal `id`, which stays well-formed. */
  ghost predicate WorksOn(w: World, w': World, id: Id) {
    && w'.gone == w.gone && w'.insts.Keys == w.insts.Keys
    && (w'.strangers, w'.usedPids, w'.reused) == (w.strangers, w.usedPids, w.reused)
    && id in w.terms && id in w'.terms && Advances(w.terms[id], w'.terms[id])
    && (Settled(w, id) ==> Settled(w', id))
    && TermOk(w', id)
    && (id in w'.disk ==> DiskOk(w', id))
    && (forall inst | inst in w'.insts && id in w'.insts[inst] :: RowOk(w', inst, id))
    && (forall x | x != id :: Untouched(w, w', x))
    && (forall h | h in w'.helpers :: (h in w.helpers && w'.helpers[h] == w.helpers[h]) || HelperOk(w', h))
    && (forall s | s in w'.signals :: s in w.signals || SignalOk(w', s))
  }

  lemma OtherTermKept(w: World, w': World, id: Id, x: Id)
    requires Inv(w) && WorksOn(w, w', id) && x in w'.terms && x != id
    ensures TermOk(w', x)
  {
    assert Untouched(w, w', x) && TermOk(w, x);
    var t := w.terms[x];
    if t.thread.Sweeping? {
      forall victim | victim in t.thread.doomed ensures Settled(w', victim) {
        assert Settled(w, victim);
        assert victim != id ==> Untouched(w, w', victim);
      }
    }
    if t.thread.Registered? || t.thread.Sweeping? || t.thread.Watching? {
      assert t.owner in w.insts && x in w.insts[t.owner] && w.insts[t.owner][x].info.running;
    }
  }

  lemma RowsKept(w: World, w': World, id: Id)
    requires Inv(w) && WorksOn(w, w', id)
    ensures forall inst, x | inst in w'.insts && x in w'.insts[inst] :: RowOk(w', inst, x)
  {
    forall inst, x | inst in w'.insts && x in w'.insts[inst] ensures RowOk(w', inst, x) {
      if x != id {
        assert Untouched(w, w', x);
        assert RowOk(w, inst, x);
      }
    }
  }

  lemma SnapshotKept(w: World, w': World, id: Id, row: Info)
    requires Inv(w) && WorksOn(w, w', id) && SnapshotOk(w, row)
    ensures SnapshotOk(w', row)
    ensures Ended(w.terms[row.id]) ==> Ended(w'.terms[row.id])
  {
    assert row.id != id ==> Untouched(w, w', row.id);
  }

  lemma DiskKept(w: World, w': World, id: Id)
    requires Inv(w) && WorksOn(w, w', id)
    ensures forall x | x in w'.disk :: DiskOk(w', x)
  {
    forall x | x in w'.disk ensures DiskOk(w', x) {
      if x != id {
        assert Untouched(w, w', x);
        assert DiskOk(w, x);
        SnapshotKept(w, w', id, w.disk[x]);
      }
    }
  }

  lemma HelpersKept(w: World, w': World, id: Id)
    requires Inv(w) && WorksOn(w, w', id)
    ensures forall h | h in w'.helpers :: HelperOk(w', h)
  {
    forall h | h in w'.helpers ensures HelperOk(w', h) {
      if h in w.helpers && w'.helpers[h] == w.helpers[h] {
        assert HelperOk(w, h);
        if w.helpers[h].job.Escalate? {
          var x := w.helpers[h].job.id;
          assert x != id ==> Untouched(w, w', x);
        } else {
          SnapshotKept(w, w', id, w.helpers[h].job.row);
        }
      }
    }
  }

  lemma PidsKept(w: World, w': World, id: Id)
    requires Inv(w) && WorksOn(w, w', id)
    ensures PidsOk(w')
  {
    forall x | x in w'.terms
      ensures x in w.terms && w'.terms[x].start == w.terms[x].start
      ensures w.terms[x].fate.Reaped? ==> w'.terms[x].fate.Reaped?
    {
      assert x != id ==> Untouched(w, w', x);
    }
  }

  lemma SignalsKept(w: World, w': World, id: Id)
    requires Inv(w) && WorksOn(w, w', id)
    ensures forall s | s in w'.signals :: SignalOk(w', s)
  {
    forall s | s in w'.signals ensures SignalOk(w', s) {
      if s in w.signals {
        assert SignalOk(w, s);
        assert s.id != id ==> Untouched(w, w', s.id);
      }
    }
  }

  /** A step on one terminal keeps the invariant as soon as that terminal stays well-formed. */
  lemma WorkKeeps(w: World, w': World, id: Id)
    requires Inv(w) && WorksOn(w, w', id)
    ensures Inv(w')
  {
    forall x | x in w'.terms ensures TermOk(w', x) {
      if x != id {
        OtherTermKept(w, w', id, x);
      }
    }
    RowsKept(w, w', id);
    DiskKept(w, w', id);
    HelpersKept(w, w', id);
    PidsKept(w, w', id);
    SignalsKept(w, w', id);
  }

  /** The invariant as far as it concerns one terminal. */
  ghost predicate OkAt(w: World, id: Id) {
    && w.insts.Keys !! w.gone
    && id in w.terms && TermOk(w, id)
    && (id in w.disk ==> DiskOk(w, id))
    && (forall inst | inst in w.insts && id in w.insts[inst] :: RowOk(w, inst, id))
  }

  lemma ExitStepWorks(w: World, e: Event)
    requires e.Exit? || e.InitReap?
    requires Enabled(w, e) && OkAt(w, e.id)
    ensures WorksOn(w, Apply(w, e), e.id)
  {
  }

  /** The spawning thread up to its first row-file write. */
  lemma SpawnStepWorks(w: World, e: Event)
    requires e.Prune? || e.Register? || e.PublishStart?
    requires Enabled(w, e) && OkAt(w, e.id)
    ensures WorksOn(w, Apply(w, e), e.id)
  {
    if e.Prune? {
      PruneStepWorks(w, e);
    }
  }

  lemma PruneStepWorks(w: World, e: Event)
    requires e.Prune? && Enabled(w, e) && OkAt(w, e.id)
    ensures WorksOn(w, Apply(w, e), e.id)
  {
  }

  lemma SweepStepWorks(w: World, e: Event)
    requires e.Condemn? || e.Sweep? || e.BeginWatch?
    requires Enabled(w, e) && OkAt(w, e.id) && (e.Condemn? ==> DiskOk(w, e.victim))
    ensures WorksOn(w, Apply(w, e), e.id)
  {
  }

  lemma TickWorks(w: World, e: Event)
    requires e.Tick? && Enabled(w, e) && OkAt(w, e.id)
    ensures WorksOn(w, Apply(w, e), e.id)
  {
  }

  lemma PublishExitWorks(w: World, e: Event)
    requires e.PublishExit? && Enabled(w, e) && OkAt(w, e.id)
    ensures WorksOn(w, Apply(w, e), e.id)
  {
  }

  /** A signal for a running row reaches that row's own process, even if pids are reused. */
  lemma LocalSignalHits(w: World, inst: Inst, id: Id)
    requires Inv(w) && inst in w.insts && id in w.insts[inst] && w.insts[inst][id].info.running
    ensures id in w.terms && Holders(w, w.insts[inst][id].info.pid) == {id}
    ensures w.insts[inst][id].info.pid !in w.strangers
  {
    assert RowOk(w, inst, id) && TermOk(w, id);
  }

  /**
   A signal sent on the word of a row file reaches that terminal alone while its process is not
   reaped, whatever pids were reused; afterwards it reaches nothing, unless this very pid was reused.
   */
  lemma ForeignSignalHits(w: World, row: Info)
    requires Inv(w) && SnapshotOk(w, row)
    ensures row.id in Holders(w, row.pid) <==> !w.terms[row.id].fate.Reaped?
    ensures row.id in Holders(w, row.pid) || row.pid !in w.reused ==>
            Holders(w, row.pid) <= {row.id} && row.pid !in w.strangers
  {
  }

  /** A step that only adds to the signals, changes helpers, or settles the row file of `id`. */
  lemma QuietStepWorks(w: World, w': World, id: Id)
    requires OkAt(w, id)
    requires w' == w.(helpers := w'.helpers, signals := w'.signals, disk := w'.disk)
    requires w'.disk == w.disk
             || (id in w'.disk && w'.disk == w.disk[id := w'.disk[id]]
                 && w'.disk[id].id == id && SnapshotOk(w, w'.disk[id]) && !w'.disk[id].running && Ended(w.terms[id]))
    requires forall h | h in w'.helpers :: (h in w.helpers && w'.helpers[h] == w.helpers[h]) || HelperOk(w', h)
    requires forall s | s in w'.signals :: s in w.signals || SignalOk(w', s)
    ensures WorksOn(w, w', id)
  {
  }

  lemma OkEverywhere(w: World, id: Id)
    requires Inv(w) && id in w.terms
    ensures OkAt(w, id)
  {
  }

  lemma StopKeeps(w: World, e: Event)
    requires e.StopLocal? && Inv(w) && Enabled(w, e)
    ensures WorksOn(w, Apply(w, e), e.id)
  {
    LocalSignalHits(w, e.inst, e.id);
    OkEverywhere(w, e.id);
    var w' := Apply(w, e);
    QuietStepWorks(w, w', e.id);
  }

  lemma ReadKeeps(w: World, e: Event)
    requires e.ReadToStop? || e.ReadToList?
    requires Inv(w) && Enabled(w, e)
    ensures WorksOn(w, Apply(w, e), e.id)
  {
    assert DiskOk(w, e.id);
    OkEverywhere(w, e.id);
    QuietStepWorks(w, Apply(w, e), e.id);
  }

  function AboutOf(job: Job): Id {
    if job.Escalate? then job.id else job.row.id
  }

  lemma HelperStaysOk(w: World, h: nat)
    requires Inv(w) && Enabled(w, HelperStep(h))
    ensures h in Helped(w, h).helpers ==> HelperOk(Helped(w, h), h)
  {
    assert HelperOk(w, h);
    var job := w.helpers[h].job;
    if !job.Escalate? && !PidAlive(w, job.row.pid) {
      assert job.row.id !in Holders(w, job.row.pid);
    }
  }

  lemma HelperSignalsOk(w: World, h: nat)
    requires Inv(w) && Enabled(w, HelperStep(h))
    ensures forall s | s in Helped(w, h).signals :: s in w.signals || SignalOk(Helped(w, h), s)
  {
    assert HelperOk(w, h);
    var job := w.helpers[h].job;
    var inst := w.helpers[h].owner;
    if job.Escalate? {
      if job.id in w.insts[inst] && w.insts[inst][job.id].info.running {
        LocalSignalHits(w, inst, job.id);
      }
    } else {
      ForeignSignalHits(w, job.row);
    }
  }

  lemma HelperStepShape(w: World, h: nat)
    requires h in w.helpers && HelperOk(w, h)
    ensures var w' := Helped(w, h); var id := AboutOf(w.helpers[h].job);
            && w' == w.(helpers := w'.helpers, signals := w'.signals, disk := w'.disk)
            && (w'.disk == w.disk
                || (id in w'.disk && w'.disk == w.disk[id := w'.disk[id]]
                    && w'.disk[id].id == id && SnapshotOk(w, w'.disk[id])
                    && !w'.disk[id].running && Ended(w.terms[id])))
            && (forall k | k in w'.helpers && k != h :: k in w.helpers && w'.helpers[k] == w.helpers[k])
  {
  }

  lemma HelperStepWorks(w: World, h: nat)
    requires Inv(w) && Enabled(w, HelperStep(h))
    ensures WorksOn(w, Helped(w, h), AboutOf(w.helpers[h].job))
  {
    assert HelperOk(w, h);
    var id := AboutOf(w.helpers[h].job);
    var w' := Helped(w, h);
    HelperStepShape(w, h);
    HelperStaysOk(w, h);
    HelperSignalsOk(w, h);
    assert OkAt(w, id) by { OkEverywhere(w, id); }
    QuietStepWorks(w, w', id);
  }

  /** Terminals and rows keep their form when more pids have been used and more registries exist. */
  lemma GrownKeeps(w: World, w': World)
    requires Inv(w) && PidsOk(w')
    requires w' == w.(now := w'.now, strangers := w'.strangers, usedPids := w'.usedPids, reused := w'.reused,
                      insts := w'.insts)
    requires w.usedPids <= w'.usedPids && w.reused <= w'.reused
    requires w.insts.Keys <= w'.insts.Keys && w'.insts.Keys !! w.gone
    requires forall inst | inst in w'.insts :: w'.insts[inst] == if inst in w.insts then w.insts[inst] else map[]
    ensures Inv(w')
  {
    forall id | id in w'.terms ensures TermOk(w', id) {
      assert TermOk(w, id);
      if w.terms[id].thread.Sweeping? {
        forall victim | victim in w.terms[id].thread.doomed ensures Settled(w', victim) {
          assert Settled(w, victim);
        }
      }
    }
    forall inst, id | inst in w'.insts && id in w'.insts[inst] ensures RowOk(w', inst, id) {
      assert RowOk(w, inst, id);
    }
    forall id | id in w'.disk ensures DiskOk(w', id) {
      assert DiskOk(w, id);
    }
    forall h | h in w'.helpers ensures HelperOk(w', h) {
      assert HelperOk(w, h);
    }
  }

  lemma StrangerStepKeeps(w: World, e: Event)
    requires e.StrangerStart? || e.StrangerEnd? || e.Advance? || e.StartInstance?
    requires Inv(w) && Enabled(w, e)
    ensures Inv(Apply(w, e))
  {
    var w' := Apply(w, e);
    if e.StrangerStart? {
      assert forall id | id in w.terms && w.terms[id].start.pid == e.pid && !w.terms[id].fate.Reaped? ::
          id in Holders(w, e.pid);
      assert forall id | id in w.terms && w.terms[id].start.pid == e.pid :: TermOk(w, id) && e.pid in w.usedPids;
    }
    GrownKeeps(w, w');
  }

  lemma LaunchPids(w: World, e: Event)
    requires e.Launch? && Inv(w) && Enabled(w, e)
    ensures PidsOk(Apply(w, e))
  {
    assert forall id | id in w.terms && w.terms[id].start.pid == e.info.pid && !w.terms[id].fate.Reaped? ::
        id in Holders(w, e.info.pid);
    assert forall id | id in w.terms :: TermOk(w, id) && w.terms[id].start.pid in w.usedPids;
  }

  lemma LaunchKeeps(w: World, e: Event)
    requires e.Launch? && Inv(w) && Enabled(w, e)
    ensures Inv(Apply(w, e))
  {
    var w' := Apply(w, e);
    forall id | id in w'.terms ensures TermOk(w', id) {
      if id != e.info.id {
        assert TermOk(w, id);
        if w.terms[id].thread.Sweeping? {
          forall victim | victim in w.terms[id].thread.doomed ensures Settled(w', victim) {
            assert Settled(w, victim);
          }
        }
      } else {
        assert id in w.disk ==> DiskOk(w, id);
        assert id in w.insts[e.inst] ==> RowOk(w, e.inst, id);
      }
    }
    forall inst, id | inst in w'.insts && id in w'.insts[inst] ensures RowOk(w', inst, id) {
      assert RowOk(w, inst, id);
    }
    forall id | id in w'.disk ensures DiskOk(w', id) {
      assert DiskOk(w, id);
    }
    forall h | h in w'.helpers ensures HelperOk(w', h) {
      assert HelperOk(w, h);
    }
    LaunchPids(w, e);
  }

  lemma CrashKeepsTerm(w: World, inst: Inst, id: Id)
    requires Inv(w) && inst in w.insts && id in w.terms
    ensures TermOk(Crashed(w, inst), id)
  {
    assert TermOk(w, id);
    var w' := Crashed(w, inst);
    if w'.terms[id].thread.Sweeping? {
      forall victim | victim in w.terms[id].thread.doomed ensures Settled(w', victim) {
        assert Settled(w, victim);
      }
    }
  }

  lemma CrashKeepsPids(w: World, inst: Inst)
    requires Inv(w) && inst in w.insts
    ensures PidsOk(Crashed(w, inst))
  {
    var w' := Crashed(w, inst);
    assert forall id | id in w'.terms ::
             w'.terms[id].start == w.terms[id].start && w'.terms[id].fate == w.terms[id].fate;
  }

  lemma CrashKeepsRows(w: World, inst: Inst)
    requires Inv(w) && inst in w.insts
    ensures forall i, id | i in Crashed(w, inst).insts && id in Crashed(w, inst).insts[i] ::
            RowOk(Crashed(w, inst), i, id)
    ensures forall id | id in Crashed(w, inst).disk :: DiskOk(Crashed(w, inst), id)
  {
    var w' := Crashed(w, inst);
    forall i, id | i in w'.insts && id in w'.insts[i] ensures RowOk(w', i, id) {
      assert RowOk(w, i, id);
    }
    forall id | id in w'.disk ensures DiskOk(w', id) {
      assert DiskOk(w, id);
    }
  }

  lemma CrashKeeps(w: World, inst: Inst)
    requires Inv(w) && inst in w.insts
    ensures Inv(Crashed(w, inst))
  {
    var w' := Crashed(w, inst);
    forall id | id in w'.terms ensures TermOk(w', id) {
      CrashKeepsTerm(w, inst, id);
    }
    CrashKeepsRows(w, inst);
    forall h | h in w'.helpers ensures HelperOk(w', h) {
      assert HelperOk(w, h);
    }
    CrashKeepsPids(w, inst);
  }

  lemma StepKeeps(w: World, e: Event)
    requires Inv(w) && Enabled(w, e)
    ensures Inv(Apply(w, e))
  {
    match e {
      case StartInstance(_) => StrangerStepKeeps(w, e);
      case Crash(inst) => CrashKeeps(w, inst);
      case Advance(_) => StrangerStepKeeps(w, e);
      case StrangerStart(_) => StrangerStepKeeps(w, e);
      case StrangerEnd(_) => StrangerStepKeeps(w, e);
      case Launch(_, _) => LaunchKeeps(w, e);
      case StopLocal(_, _, _) => ActorStepKeeps(w, e);
      case ReadToStop(_, _, _) => ActorStepKeeps(w, e);
      case ReadToList(_, _, _) => ActorStepKeeps(w, e);
      case HelperStep(_) => ActorStepKeeps(w, e);
      case _ => ThreadStepKeeps(w, e);
    }
  }

  lemma ActorStepKeeps(w: World, e: Event)
    requires Inv(w) && Enabled(w, e) && (e.StopLocal? || e.ReadToStop? || e.ReadToList? || e.HelperStep?)
    ensures Inv(Apply(w, e))
  {
    if e.HelperStep? {
      HelperStepWorks(w, e.helper);
      WorkKeeps(w, Apply(w, e), AboutOf(w.helpers[e.helper].job));
    } else {
      if e.StopLocal? {
        StopKeeps(w, e);
      } else {
        ReadKeeps(w, e);
      }
      WorkKeeps(w, Apply(w, e), e.id);
    }
  }

  lemma ThreadStepKeeps(w: World, e: Event)
    requires Inv(w) && Enabled(w, e)
    requires e.Exit? || e.InitReap? || e.Prune? || e.Register? || e.PublishStart? || e.Condemn? || e.Sweep?
             || e.BeginWatch? || e.Tick? || e.PublishExit?
    ensures Inv(Apply(w, e))
  {
    OkEverywhere(w, e.id);
    if e.Condemn? || e.Sweep? || e.BeginWatch? {
      assert e.Condemn? ==> DiskOk(w, e.victim);
      SweepStepWorks(w, e);
    } else if e.Tick? {
      TickWorks(w, e);
    } else if e.PublishExit? {
      PublishExitWorks(w, e);
    } else if e.Exit? || e.InitReap? {
      ExitStepWorks(w, e);
    } else {
      SpawnStepWorks(w, e);
    }
    WorkKeeps(w, Apply(w, e), e.id);
  }
}
