/** What holds over every run of the background-terminal protocol. */
module TerminalRuns {
  import opened Wrappers
  import opened Terminals
  import opened TerminalProtocol

  datatype Run = Run(worlds: seq<World>, events: seq<Event>)

  /** No terminal yet, an empty row folder, and whatever other processes the machine runs. */
  ghost predicate Initial(w: World) {
    && w.terms == map[] && w.disk == map[] && w.insts == map[] && w.gone == {} && w.helpers == map[]
    && w.signals == [] && w.usedPids == w.strangers && w.reused == {}
  }

  ghost predicate IsRun(r: Run) {
    && |r.worlds| == |r.events| + 1
    && Initial(r.worlds[0])
    && forall k | 0 <= k < |r.events| ::
         Enabled(r.worlds[k], r.events[k]) && r.worlds[k + 1] == Apply(r.worlds[k], r.events[k])
  }

  lemma {:induction false} InvAlways(r: Run, k: nat)
    requires IsRun(r) && k < |r.worlds|
    ensures Inv(r.worlds[k])
  {
    if k > 0 {
      InvAlways(r, k - 1);
      StepKeeps(r.worlds[k - 1], r.events[k - 1]);
    }
  }

  // ---------- a stopped row file belongs to a dead process ----------

  /** What holds later but not at first came about at some step. */
  lemma {:induction false} Cause(holds: nat -> bool, causes: nat -> bool, k: nat) returns (j: nat)
    requires holds(k) && !holds(0) && forall j: nat | j < k && holds(j + 1) :: holds(j) || causes(j)
    ensures j < k && causes(j)
  {
    j := k - 1;
    if !causes(j) {
      j := Cause(holds, causes, k - 1);
    }
  }

  lemma GivenUpStep(w: World, e: Event, id: Id)
    requires Enabled(w, e) && id in Apply(w, e).terms && Apply(w, e).terms[id].waitFailed
    ensures e == Tick(id, WaitFailed) || (id in w.terms && w.terms[id].waitFailed)
  {
    if e.HelperStep? {
      assert Helped(w, e.helper).terms == w.terms;
    } else if e.Tick? {
      GivenUpByTick(w, e, id);
    } else {
      NobodyElseGivesUp(w, e, id);
    }
  }

  lemma GivenUpByTick(w: World, e: Event, id: Id)
    requires e.Tick? && Enabled(w, e) && id in Apply(w, e).terms && Apply(w, e).terms[id].waitFailed
    ensures e == Tick(id, WaitFailed) || (id in w.terms && w.terms[id].waitFailed)
  {
  }

  lemma NobodyElseGivesUp(w: World, e: Event, id: Id)
    requires !e.Tick? && !e.HelperStep? && Enabled(w, e) && id in Apply(w, e).terms && Apply(w, e).terms[id].waitFailed
    ensures id in w.terms && w.terms[id].waitFailed
  {
  }

  lemma GivenUpInRun(r: Run, k: nat, id: Id)
    requires IsRun(r) && k < |r.events| && id in r.worlds[k + 1].terms && r.worlds[k + 1].terms[id].waitFailed
    ensures r.events[k] == Tick(id, WaitFailed) || (id in r.worlds[k].terms && r.worlds[k].terms[id].waitFailed)
  {
    GivenUpStep(r.worlds[k], r.events[k], id);
  }

  lemma OnlyFailedWaitsGiveUp(r: Run, k: nat, id: Id)
    requires IsRun(r) && k < |r.worlds|
    requires forall j | 0 <= j < k :: r.events[j] != Tick(id, WaitFailed)
    ensures id in r.worlds[k].terms ==> !r.worlds[k].terms[id].waitFailed
  {
    if id in r.worlds[k].terms && r.worlds[k].terms[id].waitFailed {
      var holds := (j: nat) => j < |r.worlds| && id in r.worlds[j].terms && r.worlds[j].terms[id].waitFailed;
      var causes := (j: nat) => j < |r.events| && r.events[j] == Tick(id, WaitFailed);
      forall j: nat | j < k && holds(j + 1) ensures holds(j) || causes(j) {
        GivenUpInRun(r, j, id);
      }
      var j := Cause(holds, causes, k);
      assert false;
    }
  }

  /** A row file that says "stopped" names a process that is dead and reaped, unless waiting for it failed. */
  lemma StoppedOnDiskIsDead(r: Run, k: nat, id: Id)
    requires IsRun(r) && k < |r.worlds|
    requires id in r.worlds[k].disk && !r.worlds[k].disk[id].running
    requires forall j | 0 <= j < k :: r.events[j] != Tick(id, WaitFailed)
    ensures id in r.worlds[k].terms && r.worlds[k].terms[id].fate.Reaped?
  {
    InvAlways(r, k);
    assert DiskOk(r.worlds[k], id);
    OnlyFailedWaitsGiveUp(r, k, id);
  }

  /** One failed wait publishes a live process as stopped. */
  lemma FailedWaitPublishesALiveProcess(w: World, id: Id)
    requires Inv(w) && HasThread(w, id) && w.terms[id].thread.Watching? && w.terms[id].fate.Alive?
    ensures Enabled(w, Tick(id, WaitFailed))
    ensures var w1 := Apply(w, Tick(id, WaitFailed));
            && Enabled(w1, PublishExit(id))
            && (var w2 := Apply(w1, PublishExit(id));
                id in w2.disk && !w2.disk[id].running && id in w2.terms && w2.terms[id].fate.Alive?)
  {
    assert TermOk(w, id);
  }

  function Last(r: Run): World
    requires r.worlds != []
  {
    r.worlds[|r.worlds| - 1]
  }

  lemma Extended(r: Run, e: Event) returns (r': Run)
    requires IsRun(r) && Enabled(Last(r), e)
    ensures IsRun(r') && Last(r') == Apply(Last(r), e) && r'.events == r.events + [e]
  {
    r' := Run(r.worlds + [Apply(Last(r), e)], r.events + [e]);
    forall k | 0 <= k < |r'.events|
      ensures Enabled(r'.worlds[k], r'.events[k]) && r'.worlds[k + 1] == Apply(r'.worlds[k], r'.events[k])
    {
      if k < |r.events| {
        assert r'.worlds[k] == r.worlds[k] && r'.worlds[k + 1] == r.worlds[k + 1];
      }
    }
  }

  /** A terminal just spawned by the only instance, with its thread at a given point. */
  ghost predicate Spawned(w: World, info: Info, thread: Thread) {
    && 0 in w.insts && info.id in w.terms && w.terms[info.id] == Terminal(0, info, Alive, false, thread)
    && (!thread.Launched? && !thread.Ready? ==> info.id in w.insts[0] && w.insts[0][info.id] == Row(info, true))
  }

  lemma LaunchIsReachable(info: Info) returns (r: Run)
    requires info.running && info.exitCode == None && info.startedAt == 0
    ensures IsRun(r) && Spawned(Last(r), info, Launched) && r.events == [StartInstance(0), Launch(0, info)]
    ensures Last(r).insts == map[0 := map[]]
  {
    var w := World(0, map[], {}, {}, {}, map[], map[], {}, map[], []);
    r := Extended(Run([w], []), StartInstance(0));
    r := Extended(r, Launch(0, info));
  }

  lemma RegisteredIsReachable(info: Info) returns (r: Run)
    requires info.running && info.exitCode == None && info.startedAt == 0
    ensures IsRun(r) && Spawned(Last(r), info, Registered)
    ensures forall e | e in r.events :: !e.Tick?
  {
    r := LaunchIsReachable(info);
    NothingToPrune();
    r := Extended(r, Prune(info.id, map[]));
    r := Extended(r, Register(info.id));
  }

  /** Any terminal's watcher can be reached with its process alive. */
  lemma WatchingIsReachable(info: Info) returns (r: Run)
    requires info.running && info.exitCode == None && info.startedAt == 0
    ensures IsRun(r) && Spawned(Last(r), info, Watching)
    ensures forall e | e in r.events :: !e.Tick?
  {
    r := RegisteredIsReachable(info);
    r := Extended(r, PublishStart(info.id));
    r := Extended(r, BeginWatch(info.id));
  }

  lemma NothingToPrune()
    ensures PrunedTo(map[], map[])
  {
    assert ExitedIds(map[]) == {};
  }

  /** The exception is real: a run in which a row file says "stopped" while its process lives, after one failed wait. */
  lemma StoppedOnDiskCanBeAlive(info: Info) returns (r: Run)
    requires info.running && info.exitCode == None && info.startedAt == 0
    ensures IsRun(r) && forall e | e in r.events && e.Tick? :: e == Tick(info.id, WaitFailed)
    ensures info.id in Last(r).disk && !Last(r).disk[info.id].running
    ensures info.id in Last(r).terms && Last(r).terms[info.id].fate.Alive?
  {
    r := WatchingIsReachable(info);
    InvAlways(r, |r.worlds| - 1);
    FailedWaitPublishesALiveProcess(Last(r), info.id);
    r := Extended(r, Tick(info.id, WaitFailed));
    r := Extended(r, PublishExit(info.id));
  }

  // ---------- exit codes ----------

  /** `code` is what the process of `id` exited with, or a wait for it failed and `code` says so. */
  ghost predicate Earned(events: seq<Event>, id: Id, code: Option<int>) {
    Exit(id, code) in events || (Tick(id, WaitFailed) in events && code == Some(-1))
  }

  lemma EarnedStays(events: seq<Event>, more: seq<Event>, id: Id, code: Option<int>)
    requires Earned(events, id, code) && forall e | e in events :: e in more
    ensures Earned(more, id, code)
  {
  }

  /** Only a launch adds a terminal, and none changes what it was launched as. */
  lemma NothingElseLaunches(w: World, e: Event, id: Id)
    requires Enabled(w, e) && !e.Launch?
    ensures id in Apply(w, e).terms <==> id in w.terms
  {
    if e.HelperStep? {
      assert Helped(w, e.helper).terms == w.terms;
    }
  }

  lemma SameStart(w: World, e: Event, id: Id)
    requires Enabled(w, e) && !e.Launch? && id in w.terms && id in Apply(w, e).terms
    ensures Apply(w, e).terms[id].owner == w.terms[id].owner && Apply(w, e).terms[id].start == w.terms[id].start
  {
    if e.HelperStep? {
      assert Helped(w, e.helper).terms == w.terms;
    }
  }

  lemma ZombieStep(w: World, e: Event, id: Id)
    requires Enabled(w, e) && !e.Launch? && id in w.terms
    requires id in Apply(w, e).terms && Apply(w, e).terms[id].fate.Zombie?
    ensures e == Exit(id, Apply(w, e).terms[id].fate.code) || w.terms[id].fate == Apply(w, e).terms[id].fate
  {
    if e.HelperStep? {
      assert Helped(w, e.helper).terms == w.terms;
    }
  }

  lemma LaunchIsAlive(w: World, e: Event, id: Id)
    requires e.Launch? && Enabled(w, e) && id in Apply(w, e).terms
    ensures var t := Apply(w, e).terms[id];
            if id == e.info.id then t.fate.Alive? && e == Launch(t.owner, t.start)
            else id in w.terms && t == w.terms[id]
  {
  }

  lemma MoreOf<T>(s: seq<T>, k: nat)
    requires k < |s|
    ensures s[k] in s[..k + 1] && forall x | x in s[..k] :: x in s[..k + 1]
  {
    assert s[..k + 1] == s[..k] + [s[k]];
  }

  lemma ZombieInRun(r: Run, k: nat, id: Id)
    requires IsRun(r) && k < |r.events| && id in r.worlds[k + 1].terms && r.worlds[k + 1].terms[id].fate.Zombie?
    ensures r.events[k] == Exit(id, r.worlds[k + 1].terms[id].fate.code)
            || (id in r.worlds[k].terms && r.worlds[k].terms[id].fate == r.worlds[k + 1].terms[id].fate)
  {
    var w, e := r.worlds[k], r.events[k];
    if e.Launch? {
      LaunchIsAlive(w, e, id);
    } else {
      NothingElseLaunches(w, e, id);
      ZombieStep(w, e, id);
    }
  }

  lemma ZombiesExited(r: Run, k: nat, id: Id)
    requires IsRun(r) && k < |r.worlds| && id in r.worlds[k].terms && r.worlds[k].terms[id].fate.Zombie?
    ensures Exit(id, r.worlds[k].terms[id].fate.code) in r.events[..k]
  {
    var code := r.worlds[k].terms[id].fate.code;
    var holds := (j: nat) => j < |r.worlds| && id in r.worlds[j].terms && r.worlds[j].terms[id].fate == Zombie(code);
    var causes := (j: nat) => j < |r.events| && r.events[j] == Exit(id, code);
    forall j: nat | j < k && holds(j + 1) ensures holds(j) || causes(j) {
      ZombieInRun(r, j, id);
    }
    var j := Cause(holds, causes, k);
    assert r.events[..k][j] == r.events[j];
  }

  lemma StartInRun(r: Run, k: nat, id: Id)
    requires IsRun(r) && k < |r.events| && id in r.worlds[k + 1].terms
    ensures var t := r.worlds[k + 1].terms[id];
            || r.events[k] == Launch(t.owner, t.start)
            || (id in r.worlds[k].terms && r.worlds[k].terms[id].owner == t.owner &&
               r.worlds[k].terms[id].start == t.start)
  {
    var w, e := r.worlds[k], r.events[k];
    if e.Launch? {
      LaunchIsAlive(w, e, id);
    } else {
      NothingElseLaunches(w, e, id);
      SameStart(w, e, id);
    }
  }

  /** Every terminal is what some launch made it. */
  lemma TermsWereLaunched(r: Run, k: nat, id: Id)
    requires IsRun(r) && k < |r.worlds| && id in r.worlds[k].terms
    ensures Launch(r.worlds[k].terms[id].owner, r.worlds[k].terms[id].start) in r.events[..k]
  {
    var t := r.worlds[k].terms[id];
    var holds := (j: nat) => j < |r.worlds| && id in r.worlds[j].terms && r.worlds[j].terms[id].owner == t.owner
                             && r.worlds[j].terms[id].start == t.start;
    var causes := (j: nat) => j < |r.events| && r.events[j] == Launch(t.owner, t.start);
    forall j: nat | j < k && holds(j + 1) ensures holds(j) || causes(j) {
      StartInRun(r, j, id);
    }
    var j := Cause(holds, causes, k);
    assert r.events[..k][j] == r.events[j];
  }

  /** `row` is the row of a terminal that was started as `start` and ended with a code it earned. */
  ghost predicate EndedRow(events: seq<Event>, start: Info, row: Info) {
    && row == Info(start.id, start.chat, start.command, start.startedAt, false, row.exitCode, start.pid)
    && Earned(events, start.id, row.exitCode)
  }

  /** The owner's registry holds `row` as an exited one, or its watcher is about to write it. */
  ghost predicate HoldsEnded(w: World, id: Id, row: Info)
    requires id in w.terms
  {
    var t := w.terms[id];
    || (t.owner in w.insts && id in w.insts[t.owner] && w.insts[t.owner][id].info == row && !row.running)
    || t.thread == Publishing(row)
  }

  /** What a look of the watcher makes of the start row. */
  ghost predicate SeenEnded(w: World, id: Id, waited: Waited, row: Info)
    requires id in w.terms
  {
    var start := w.terms[id].start;
    && (waited.Exited? ==> w.terms[id].fate == Zombie(waited.code)) && waited != StillRunning
    && row == Info(start.id, start.chat, start.command, start.startedAt, false,
                   if waited.Exited? then waited.code else Some(-1), start.pid)
  }

  lemma TickEnds(w: World, id: Id, e: Event, row: Info)
    requires e.Tick? && Enabled(w, e) && TermOk(w, e.id) && id in w.terms && HoldsEnded(Apply(w, e), id, row)
    ensures HoldsEnded(w, id, row) || (e.id == id && SeenEnded(w, id, e.waited, row))
  {
  }

  lemma HelpersEndNothing(w: World, id: Id, h: nat, row: Info)
    requires Enabled(w, HelperStep(h)) && id in w.terms && HoldsEnded(Helped(w, h), id, row)
    ensures HoldsEnded(w, id, row)
  {
    assert Helped(w, h).insts == w.insts && Helped(w, h).terms == w.terms;
  }

  lemma OthersEndNothing(w: World, id: Id, e: Event, row: Info)
    requires Enabled(w, e) && !e.Tick? && !e.HelperStep? && !e.Launch?
    requires id in w.terms && HoldsEnded(Apply(w, e), id, row)
    requires e.Register? ==> TermOk(w, e.id)
    ensures HoldsEnded(w, id, row)
  {
  }

  lemma LaunchEndsNothing(w: World, id: Id, e: Event, row: Info)
    requires e.Launch? && Enabled(w, e) && id in Apply(w, e).terms && HoldsEnded(Apply(w, e), id, row)
    requires e.info.id !in w.insts[e.inst]
    ensures id in w.terms && HoldsEnded(w, id, row)
  {
  }

  /** What a step needs to be sound for its own terminal. */
  ghost predicate OwnTermOk(w: World, e: Event)
    requires Enabled(w, e)
  {
    && (e.Launch? ==> e.info.id !in w.insts[e.inst])
    && (e.Tick? || e.Register? ==> TermOk(w, e.id))
  }

  lemma OwnTermIsOk(w: World, e: Event)
    requires Inv(w) && Enabled(w, e)
    ensures OwnTermOk(w, e)
  {
    assert e.Launch? && e.info.id in w.insts[e.inst] ==> RowOk(w, e.inst, e.info.id);
  }

  /** An exited row in a registry, or on its way to disk, was there before, or the watcher just saw the exit. */
  lemma EndedRowStep(w: World, e: Event, id: Id, row: Info)
    requires Enabled(w, e) && OwnTermOk(w, e) && id in Apply(w, e).terms && HoldsEnded(Apply(w, e), id, row)
    ensures id in w.terms
    ensures HoldsEnded(w, id, row) || (e.Tick? && e.id == id && SeenEnded(w, id, e.waited, row))
  {
    if e.Launch? {
      LaunchEndsNothing(w, id, e, row);
    } else {
      NothingElseLaunches(w, e, id);
      if e.Tick? {
        TickEnds(w, id, e, row);
      } else if e.HelperStep? {
        HelpersEndNothing(w, id, e.helper, row);
      } else {
        OthersEndNothing(w, id, e, row);
      }
    }
  }

  /** One event of a run, as far as an exited row is concerned. */
  lemma EndedRowInRun(r: Run, k: nat, id: Id, row: Info)
    requires IsRun(r) && k < |r.events| && id in r.worlds[k + 1].terms && HoldsEnded(r.worlds[k + 1], id, row)
    ensures id in r.worlds[k].terms && r.worlds[k].terms[id].start == r.worlds[k + 1].terms[id].start
    ensures HoldsEnded(r.worlds[k], id, row)
            || (r.events[k].Tick? && r.events[k].id == id && SeenEnded(r.worlds[k], id, r.events[k].waited, row))
  {
    var w, e := r.worlds[k], r.events[k];
    InvAlways(r, k);
    OwnTermIsOk(w, e);
    EndedRowStep(w, e, id, row);
    StartStays(w, e, id);
  }

  lemma StartHasItsId(r: Run, k: nat, id: Id)
    requires IsRun(r) && k < |r.worlds| && id in r.worlds[k].terms
    ensures r.worlds[k].terms[id].start.id == id
  {
    InvAlways(r, k);
    assert TermOk(r.worlds[k], id);
  }

  /** What the watcher saw was earned. */
  lemma SeenIsEarned(r: Run, k: nat, id: Id, row: Info)
    requires IsRun(r) && k < |r.events| && id in r.worlds[k].terms && r.events[k].Tick? && r.events[k].id == id
    requires SeenEnded(r.worlds[k], id, r.events[k].waited, row) && r.worlds[k].terms[id].start.id == id
    ensures EndedRow(r.events[..k + 1], r.worlds[k].terms[id].start, row)
  {
    MoreOf(r.events, k);
    if r.events[k].waited.Exited? {
      ZombiesExited(r, k, id);
    } else {
      assert r.events[k] == Tick(id, WaitFailed);
    }
  }

  lemma {:induction false} EndedRowsEarnedTheirCode(r: Run, k: nat, id: Id, row: Info)
    requires IsRun(r) && k < |r.worlds| && id in r.worlds[k].terms && HoldsEnded(r.worlds[k], id, row)
    ensures r.worlds[k].terms[id].start.id == id
    ensures EndedRow(r.events[..k], r.worlds[k].terms[id].start, row)
  {
    StartHasItsId(r, k, id);
    if k > 0 {
      EndedRowInRun(r, k - 1, id, row);
      if HoldsEnded(r.worlds[k - 1], id, row) {
        EndedRowsEarnedTheirCode(r, k - 1, id, row);
        MoreOf(r.events, k - 1);
        EarnedStays(r.events[..k - 1], r.events[..k], id, row.exitCode);
      } else {
        SeenIsEarned(r, k - 1, id, row);
      }
    }
  }

  lemma StartStays(w: World, e: Event, id: Id)
    requires Enabled(w, e) && id in w.terms && id in Apply(w, e).terms
    ensures Apply(w, e).terms[id].start == w.terms[id].start
  {
    if e.Launch? {
      LaunchIsAlive(w, e, id);
    } else {
      SameStart(w, e, id);
    }
  }

  /**
   An exited row in its owner's registry is the launched one with `running` cleared and the code its
   process exited with; where a wait failed, the code may be -1 instead.
   */
  lemma ExitedRowsCarryTheirCode(r: Run, k: nat, inst: Inst, id: Id) returns (start: Info)
    requires IsRun(r) && k < |r.worlds| && inst in r.worlds[k].insts && id in r.worlds[k].insts[inst]
    requires !r.worlds[k].insts[inst][id].info.running
    ensures Launch(inst, start) in r.events[..k] && start.id == id
    ensures var row := r.worlds[k].insts[inst][id].info;
            && row == Info(id, start.chat, start.command, start.startedAt, false, row.exitCode, start.pid)
            && (Exit(id, row.exitCode) in r.events[..k]
                || (Tick(id, WaitFailed) in r.events[..k] && row.exitCode == Some(-1)))
  {
    InvAlways(r, k);
    assert RowOk(r.worlds[k], inst, id);
    start := r.worlds[k].terms[id].start;
    TermsWereLaunched(r, k, id);
    EndedRowsEarnedTheirCode(r, k, id, r.worlds[k].insts[inst][id].info);
  }

  /** So is the row the watcher publishes. */
  lemma PublishedRowsCarryTheirCode(r: Run, k: nat, id: Id) returns (start: Info)
    requires IsRun(r) && k < |r.events| && r.events[k] == PublishExit(id)
    ensures id in r.worlds[k].terms && Launch(r.worlds[k].terms[id].owner, start) in r.events[..k] && start.id == id
    ensures id in r.worlds[k + 1].disk
    ensures var row := r.worlds[k + 1].disk[id];
            && row == Info(id, start.chat, start.command, start.startedAt, false, row.exitCode, start.pid)
            && (Exit(id, row.exitCode) in r.events[..k]
                || (Tick(id, WaitFailed) in r.events[..k] && row.exitCode == Some(-1)))
  {
    start := r.worlds[k].terms[id].start;
    TermsWereLaunched(r, k, id);
    EndedRowsEarnedTheirCode(r, k, id, r.worlds[k].terms[id].thread.row);
  }

  lemma DeadStaysDead(w: World, e: Event, id: Id)
    requires Enabled(w, e) && id in w.terms && !w.terms[id].fate.Alive?
    ensures id in Apply(w, e).terms && !Apply(w, e).terms[id].fate.Alive?
  {
    if e.HelperStep? {
      assert Helped(w, e.helper).terms == w.terms;
    }
  }

  /** Its process is not running. */
  ghost predicate Dead(w: World, id: Id) {
    id in w.terms && !w.terms[id].fate.Alive?
  }

  lemma DeadInRun(r: Run, k: nat, id: Id)
    requires IsRun(r) && k < |r.events|
    requires Dead(r.worlds[k], id) || (r.events[k].Exit? && r.events[k].id == id)
    ensures Dead(r.worlds[k + 1], id)
  {
    if Dead(r.worlds[k], id) {
      DeadStaysDead(r.worlds[k], r.events[k], id);
    }
  }

  lemma {:induction false} ExitedAtLast(r: Run, i: nat, j: nat, id: Id)
    requires IsRun(r) && i < j < |r.worlds| && r.events[i].Exit? && r.events[i].id == id
    ensures Dead(r.worlds[j], id)
  {
    if i + 1 < j {
      ExitedAtLast(r, i, j - 1, id);
    }
    DeadInRun(r, j - 1, id);
  }

  /** A terminal exits at most once, so its code is the one code it exited with. */
  lemma OneExitEach(r: Run, i: nat, j: nat, id: Id)
    requires IsRun(r) && i <= j < |r.events|
    requires r.events[i].Exit? && r.events[i].id == id && r.events[j].Exit? && r.events[j].id == id
    ensures i == j
  {
    if i < j {
      ExitedAtLast(r, i, j, id);
    }
  }

  /** No code but the process's own: none known, the -1 of a gone or failed wait, or what it exited with. */
  ghost predicate TrueCode(events: seq<Event>, row: Info) {
    row.exitCode == None || row.exitCode == Some(-1) || Exit(row.id, row.exitCode) in events
  }

  ghost predicate TrueCodes(events: seq<Event>, w: World) {
    && (forall id | id in w.disk :: TrueCode(events, w.disk[id]))
    && (forall h | h in w.helpers && !w.helpers[h].job.Escalate? :: TrueCode(events, w.helpers[h].job.row))
  }

  lemma HelperWritesTrueCodes(events: seq<Event>, w: World, h: nat)
    requires Enabled(w, HelperStep(h)) && TrueCodes(events, w)
    ensures TrueCodes(events, Helped(w, h))
  {
    HelperFilesTrueCodes(events, w, h);
    HelperReadsTrueCodes(events, w, h);
  }

  lemma HelperFilesTrueCodes(events: seq<Event>, w: World, h: nat)
    requires Enabled(w, HelperStep(h)) && TrueCodes(events, w)
    ensures forall id | id in Helped(w, h).disk :: TrueCode(events, Helped(w, h).disk[id])
  {
  }

  lemma HelperReadsTrueCodes(events: seq<Event>, w: World, h: nat)
    requires Enabled(w, HelperStep(h)) && TrueCodes(events, w)
    ensures forall k | k in Helped(w, h).helpers && !Helped(w, h).helpers[k].job.Escalate? ::
              TrueCode(events, Helped(w, h).helpers[k].job.row)
  {
  }

  lemma ThreadWritesTrueCodes(events: seq<Event>, w: World, e: Event)
    requires Enabled(w, e) && !e.HelperStep? && TrueCodes(events, w)
    requires e.PublishStart? ==> w.terms[e.id].start.exitCode == None
    requires e.PublishExit? ==> TrueCode(events, w.terms[e.id].thread.row)
    ensures TrueCodes(events, Apply(w, e))
  {
  }

  lemma StartHasNoCode(r: Run, k: nat, id: Id)
    requires IsRun(r) && k < |r.worlds| && id in r.worlds[k].terms
    ensures r.worlds[k].terms[id].start.exitCode == None
  {
    TermsWereLaunched(r, k, id);
    var j :| 0 <= j < k && r.events[j] == Launch(r.worlds[k].terms[id].owner, r.worlds[k].terms[id].start);
    assert Enabled(r.worlds[j], r.events[j]);
  }

  /**
   In no run does a row file, whoever wrote it, claim a code its process did not exit with: heals and
   foreign stops only leave out what they cannot know.
   */
  lemma {:induction false} RowFilesCarryNoOtherCode(r: Run, k: nat)
    requires IsRun(r) && k < |r.worlds|
    ensures TrueCodes(r.events[..k], r.worlds[k])
  {
    if k > 0 {
      var w, e := r.worlds[k - 1], r.events[k - 1];
      RowFilesCarryNoOtherCode(r, k - 1);
      MoreEventsSameCodes(r.events[..k - 1], r.events[..k], w);
      if e.HelperStep? {
        HelperWritesTrueCodes(r.events[..k], w, e.helper);
      } else {
        if e.PublishStart? {
          StartHasNoCode(r, k - 1, e.id);
        } else if e.PublishExit? {
          EndedRowsEarnedTheirCode(r, k - 1, e.id, w.terms[e.id].thread.row);
        }
        ThreadWritesTrueCodes(r.events[..k], w, e);
      }
    }
  }

  lemma MoreEventsSameCodes(events: seq<Event>, more: seq<Event>, w: World)
    requires TrueCodes(events, w) && events <= more
    ensures TrueCodes(more, w)
  {
    assert forall e | e in events :: e in more;
  }

  // ---------- a stopped row file never runs again ----------

  lemma HelpersSettle(w: World, h: nat, id: Id)
    requires Enabled(w, HelperStep(h)) && Settled(w, id) && HelperOk(w, h)
    ensures Settled(Helped(w, h), id)
  {
  }

  lemma ThreadsSettle(w: World, e: Event, id: Id)
    requires !e.HelperStep? && Enabled(w, e) && Settled(w, id)
    requires e.PublishExit? ==> TermOk(w, e.id)
    ensures Settled(Apply(w, e), id)
  {
    if e.Tick? {
      TickSettles(w, e, id);
    }
  }

  lemma TickSettles(w: World, e: Event, id: Id)
    requires e.Tick? && Enabled(w, e) && Settled(w, id)
    ensures Settled(Apply(w, e), id)
  {
  }

  /** Only two kinds of thread write a row file after the start row, and both write it as stopped. */
  lemma WritersSettle(w: World, e: Event, id: Id)
    requires Enabled(w, e) && Settled(w, id)
    requires e.PublishExit? ==> e.id in w.terms && TermOk(w, e.id)
    requires e.HelperStep? ==> e.helper in w.helpers && HelperOk(w, e.helper)
    ensures Settled(Apply(w, e), id)
  {
    if e.HelperStep? {
      HelpersSettle(w, e.helper, id);
    } else {
      ThreadsSettle(w, e, id);
    }
  }

  lemma SettledStays(w: World, e: Event, id: Id)
    requires Inv(w) && Enabled(w, e) && Settled(w, id)
    ensures Settled(Apply(w, e), id)
  {
    WritersSettle(w, e, id);
  }

  /** Once a row file said "stopped", no later step of any instance makes it say "running". */
  lemma {:induction false} StoppedOnDiskStaysStopped(r: Run, i: nat, j: nat, id: Id)
    requires IsRun(r) && i <= j < |r.worlds|
    requires id in r.worlds[i].disk && !r.worlds[i].disk[id].running
    ensures Settled(r.worlds[j], id) && !RunningOnDisk(r.worlds[j], id)
  {
    if i == j {
      InvAlways(r, i);
      assert DiskOk(r.worlds[i], id);
    } else {
      StoppedOnDiskStaysStopped(r, i, j - 1, id);
      InvAlways(r, j - 1);
      SettledStays(r.worlds[j - 1], r.events[j - 1], id);
    }
  }

  // ---------- signals ----------

  /** In every registry `running` means the handle is kept, and then the process is not reaped. */
  lemma RunningMeansHandleKept(r: Run, k: nat, inst: Inst)
    requires IsRun(r) && k < |r.worlds| && inst in r.worlds[k].insts
    ensures Consistent(r.worlds[k].insts[inst])
    ensures forall id | id in r.worlds[k].insts[inst] && r.worlds[k].insts[inst][id].child ::
              id in r.worlds[k].terms && !r.worlds[k].terms[id].fate.Reaped?
  {
    InvAlways(r, k);
    var w := r.worlds[k];
    forall id | id in w.insts[inst]
      ensures w.insts[inst][id].info.id == id && (w.insts[inst][id].info.running <==> w.insts[inst][id].child)
      ensures w.insts[inst][id].child ==> id in w.terms && !w.terms[id].fate.Reaped?
    {
      assert RowOk(w, inst, id) && TermOk(w, id);
    }
  }

  /** Stop and its delayed escalation reach their own terminal's process and no other, even if pids are reused. */
  lemma LocalSignalsReachTheirOwnProcess(r: Run, k: nat, s: Signal)
    requires IsRun(r) && k < |r.worlds| && s in r.worlds[k].signals && s.local
    ensures s.hits == {s.id} && !s.stranger
  {
    InvAlways(r, k);
    assert SignalOk(r.worlds[k], s);
  }

  /**
   A stop from another instance that reaches its terminal's process reaches nothing else, whatever
   pids were reused; and it reaches nothing else in any case unless that terminal's own pid was.
   */
  lemma ForeignSignalsNeedTheirOwnPid(r: Run, k: nat, s: Signal)
    requires IsRun(r) && k < |r.worlds| && s in r.worlds[k].signals
    ensures s.id in r.worlds[k].terms
    ensures s.id in s.hits || r.worlds[k].terms[s.id].start.pid !in r.worlds[k].reused ==>
            s.hits <= {s.id} && !s.stranger
  {
    InvAlways(r, k);
    assert SignalOk(r.worlds[k], s);
  }

  lemma HelperSignalReaches(w: World, h: nat)
    requires Inv(w) && Enabled(w, HelperStep(h)) && |Helped(w, h).signals| > |w.signals|
    ensures var s := Helped(w, h).signals[|w.signals|];
            s.id in w.terms && (s.id in s.hits <==> !w.terms[s.id].fate.Reaped?)
  {
    assert HelperOk(w, h);
    var job, inst := w.helpers[h].job, w.helpers[h].owner;
    if job.Escalate? {
      LocalSignalHits(w, inst, job.id);
    } else {
      ForeignSignalHits(w, job.row);
    }
  }

  /** A signal reaches its terminal's process exactly when that process is not reaped at the time it is sent. */
  lemma SignalsReachTheUnreaped(r: Run, k: nat)
    requires IsRun(r) && k < |r.events| && |r.worlds[k + 1].signals| > |r.worlds[k].signals|
    ensures var w, s := r.worlds[k], r.worlds[k + 1].signals[|r.worlds[k].signals|];
            s.id in w.terms && (s.id in s.hits <==> !w.terms[s.id].fate.Reaped?)
  {
    InvAlways(r, k);
    var w, e := r.worlds[k], r.events[k];
    if e.HelperStep? {
      HelperSignalReaches(w, e.helper);
    } else {
      OnlyStopsSignal(w, e);
      LocalSignalHits(w, e.inst, e.id);
    }
  }

  lemma OnlyStopsSignal(w: World, e: Event)
    requires Enabled(w, e) && !e.HelperStep? && |Apply(w, e).signals| > |w.signals|
    ensures e.StopLocal?
    ensures Apply(w, e).signals[|w.signals|] ==
            Signal(e.id, true, Holders(w, w.insts[e.inst][e.id].info.pid),
                   w.insts[e.inst][e.id].info.pid in w.strangers)
  {
  }

  // ---------- no exit goes unpublished ----------

  /** A running row has a live watcher (or the thread that will become one); an exited one does not. */
  lemma RunningRowsAreWatched(r: Run, k: nat, inst: Inst, id: Id)
    requires IsRun(r) && k < |r.worlds| && inst in r.worlds[k].insts && id in r.worlds[k].insts[inst]
    ensures id in r.worlds[k].terms && r.worlds[k].terms[id].owner == inst
    ensures var thread := r.worlds[k].terms[id].thread;
            r.worlds[k].insts[inst][id].info.running <==> thread.Registered? || thread.Sweeping? || thread.Watching?
  {
    InvAlways(r, k);
    assert RowOk(r.worlds[k], inst, id) && TermOk(r.worlds[k], id);
  }

  /** Pruning the registry, which every spawn does, never takes the row of an unfinished watcher. */
  lemma WatchedRowsAreKept(r: Run, k: nat, id: Id)
    requires IsRun(r) && k < |r.worlds| && HasThread(r.worlds[k], id)
    requires var thread := r.worlds[k].terms[id].thread; thread.Registered? || thread.Sweeping? || thread.Watching?
    ensures var rows := r.worlds[k].insts[r.worlds[k].terms[id].owner];
            id in rows && rows[id].info.running && rows[id].child
  {
    InvAlways(r, k);
    assert TermOk(r.worlds[k], id);
  }

  /** The terminal's thread has nothing left to do now: its process runs on, or its exit is published. */
  ghost predicate AtRest(t: Terminal) {
    t.thread.Done? || (t.thread.Watching? && t.fate.Alive?)
  }

  /** A terminal of a live instance whose row was inserted, be it pruned from the registry since. */
  ghost predicate PastLaunch(w: World, id: Id) {
    && id in w.terms && w.terms[id].owner in w.insts
    && !w.terms[id].thread.Launched? && !w.terms[id].thread.Ready?
  }

  ghost predicate ExactOnDisk(w: World, id: Id)
    requires id in w.terms
  {
    !w.terms[id].waitFailed ==> (RunningOnDisk(w, id) <==> w.terms[id].fate.Alive?)
  }

  /**
   Every terminal of a live instance past its launch is exact on disk, and all rows of the registries
   are such terminals.
   */
  ghost predicate AllExact(w: World) {
    && (forall id | PastLaunch(w, id) :: ExactOnDisk(w, id))
    && (forall inst, id | inst in w.insts && id in w.insts[inst] :: PastLaunch(w, id))
  }

  /**
   Once the watcher is at rest, the row file says "running" exactly when the process is alive; so
   does a row not yet pruned.
   */
  lemma DrainedRowsAreExact(w: World, id: Id)
    requires Inv(w) && PastLaunch(w, id) && AtRest(w.terms[id]) && !w.terms[id].waitFailed
    ensures RunningOnDisk(w, id) <==> w.terms[id].fate.Alive?
    ensures var rows := w.insts[w.terms[id].owner];
            id in rows ==> (rows[id].info.running <==> w.terms[id].fate.Alive?)
  {
    assert TermOk(w, id);
    if id in w.insts[w.terms[id].owner] {
      assert RowOk(w, w.terms[id].owner, id);
    }
  }

  lemma RowsAreLaunched(w: World)
    requires Inv(w)
    ensures forall inst, id | inst in w.insts && id in w.insts[inst] :: PastLaunch(w, id)
  {
    forall inst, id | inst in w.insts && id in w.insts[inst] ensures PastLaunch(w, id) {
      assert RowOk(w, inst, id) && TermOk(w, id);
    }
  }

  /** Terminals of live instances whose watcher still has work. */
  ghost function Pending(w: World): set<Id> {
    set id | id in w.terms && PastLaunch(w, id) && !AtRest(w.terms[id])
  }

  ghost predicate Path(w: World, es: seq<Event>)
    decreases |es|
  {
    es == [] || (Enabled(w, es[0]) && Path(Apply(w, es[0]), es[1..]))
  }

  ghost function After(w: World, es: seq<Event>): World
    requires Path(w, es)
    decreases |es|
  {
    if es == [] then w else After(Apply(w, es[0]), es[1..])
  }

  /** Ordinary progress of a spawn-and-watch thread: no crash, no failed wait, nobody else's step. */
  ghost predicate WatcherWork(e: Event) {
    e.PublishStart? || e.BeginWatch? || e.PublishExit? || (e.Tick? && e.waited.Exited?)
  }

  ghost function NextWork(t: Terminal): Event {
    var id := t.start.id;
    match t.thread
    case Registered => PublishStart(id)
    case Sweeping(_) => BeginWatch(id)
    case Publishing(_) => PublishExit(id)
    case _ => Tick(id, Exited(if t.fate.Zombie? then t.fate.code else None))
  }

  function Rank(t: Terminal): nat {
    match t.thread
    case Registered => 4
    case Sweeping(_) => 3
    case Watching => 2
    case Publishing(_) => 1
    case _ => 0
  }

  /** Only the thread of `id` moved, and it killed nothing. */
  ghost predicate ProgressOf(w: World, w': World, id: Id) {
    && w'.insts.Keys == w.insts.Keys && w'.terms.Keys == w.terms.Keys
    && (forall x | x in w.terms && x != id :: w'.terms[x] == w.terms[x])
    && (id in w.terms ==>
          && w'.terms[id].owner == w.terms[id].owner
          && (w'.terms[id].fate.Alive? <==> w.terms[id].fate.Alive?))
  }

  lemma WorkStep(w: World, id: Id)
    requires id in Pending(w) && TermOk(w, id)
    ensures var e := NextWork(w.terms[id]);
            && WatcherWork(e) && Enabled(w, e)
            && ProgressOf(w, Apply(w, e), id)
            && (id in Pending(Apply(w, e)) ==> Rank(Apply(w, e).terms[id]) < Rank(w.terms[id]))
  {
  }

  // ---------- every schedule of watcher work ends ----------

  /** The work left in all watcher threads together. */
  ghost function TotalRank(terms: map<Id, Terminal>): nat
    decreases |terms|
  {
    if terms == map[] then 0
    else
      var id :| id in terms;
      Rank(terms[id]) + TotalRank(terms - {id})
  }

  lemma {:induction false} TakeRank(terms: map<Id, Terminal>, id: Id)
    requires id in terms
    ensures TotalRank(terms) == Rank(terms[id]) + TotalRank(terms - {id})
    decreases |terms|
  {
    var first :| first in terms && TotalRank(terms) == Rank(terms[first]) + TotalRank(terms - {first});
    if first != id {
      TakeRank(terms - {first}, id);
      TakeRank(terms - {id}, first);
      assert terms - {first} - {id} == terms - {id} - {first};
    }
  }

  lemma RankFalls(terms: map<Id, Terminal>, terms': map<Id, Terminal>, id: Id)
    requires id in terms && terms'.Keys == terms.Keys && Rank(terms'[id]) < Rank(terms[id])
    requires forall x | x in terms && x != id :: terms'[x] == terms[x]
    ensures TotalRank(terms') < TotalRank(terms)
  {
    TakeRank(terms, id);
    TakeRank(terms', id);
    assert terms - {id} == terms' - {id};
  }

  lemma WatcherStepLowers(w: World, e: Event)
    requires Enabled(w, e) && WatcherWork(e)
    ensures var w' := Apply(w, e);
            && e.id in w.terms && w'.terms.Keys == w.terms.Keys && Rank(w'.terms[e.id]) < Rank(w.terms[e.id])
            && forall x | x in w.terms && x != e.id :: w'.terms[x] == w.terms[x]
  {
  }

  /** No schedule of watcher work is longer than the work there was. */
  lemma {:induction false} SchedulesAreBounded(w: World, es: seq<Event>)
    requires Path(w, es) && forall e | e in es :: WatcherWork(e)
    ensures |es| + TotalRank(After(w, es).terms) <= TotalRank(w.terms)
    decreases |es|
  {
    if es != [] {
      assert es[0] in es && forall e | e in es[1..] :: e in es;
      WatcherStepLowers(w, es[0]);
      RankFalls(w.terms, Apply(w, es[0]).terms, es[0].id);
      SchedulesAreBounded(Apply(w, es[0]), es[1..]);
    }
  }

  lemma WatcherStepKeepsLives(w: World, e: Event)
    requires Enabled(w, e) && WatcherWork(e)
    ensures SameLives(w, Apply(w, e))
  {
  }

  lemma {:induction false} ScheduleKeeps(w: World, es: seq<Event>)
    requires Inv(w) && Path(w, es) && forall e | e in es :: WatcherWork(e)
    ensures Inv(After(w, es)) && SameLives(w, After(w, es))
    decreases |es|
  {
    if es != [] {
      assert es[0] in es && forall e | e in es[1..] :: e in es;
      StepKeeps(w, es[0]);
      WatcherStepKeepsLives(w, es[0]);
      ScheduleKeeps(Apply(w, es[0]), es[1..]);
    }
  }

  lemma IdleIsNotPending(w: World, id: Id)
    requires Inv(w) && forall e | WatcherWork(e) :: !Enabled(w, e)
    ensures id !in Pending(w)
  {
    if id in Pending(w) {
      WorkStep(w, id);
    }
  }

  lemma NothingPendingIsExact(w: World)
    requires Inv(w) && Pending(w) == {}
    ensures AllExact(w)
  {
    RowsAreLaunched(w);
    forall id | PastLaunch(w, id) ensures ExactOnDisk(w, id) {
      assert id !in Pending(w);
      if !w.terms[id].waitFailed {
        DrainedRowsAreExact(w, id);
      }
    }
  }

  lemma IdleIsExact(w: World)
    requires Inv(w) && forall e | WatcherWork(e) :: !Enabled(w, e)
    ensures AllExact(w)
  {
    forall id ensures id !in Pending(w) {
      IdleIsNotPending(w, id);
    }
    NothingPendingIsExact(w);
  }

  /**
   Whatever order the watchers work in: they kill nothing, they stop after at most the work there
   was, and when none can go on every terminal of a live instance past its launch is exact on disk,
   whether its row is still in the registry or pruned.
   */
  lemma EverySchedule(w: World, es: seq<Event>)
    requires Inv(w) && Path(w, es) && forall e | e in es :: WatcherWork(e)
    ensures |es| <= TotalRank(w.terms) && SameLives(w, After(w, es))
    ensures var w' := After(w, es);
            (forall e | WatcherWork(e) :: !Enabled(w', e)) ==> AllExact(w')
  {
    SchedulesAreBounded(w, es);
    ScheduleKeeps(w, es);
    if forall e | WatcherWork(e) :: !Enabled(After(w, es), e) {
      IdleIsExact(After(w, es));
    }
  }

  lemma PathFrom(w: World, e: Event, w': World, rest: seq<Event>)
    requires Enabled(w, e) && w' == Apply(w, e) && Path(w', rest)
    ensures Path(w, [e] + rest) && After(w, [e] + rest) == After(w', rest)
  {
    assert ([e] + rest)[1..] == rest;
  }

  lemma ProgressComposes(w: World, w': World, w'': World, id: Id)
    requires ProgressOf(w, w', id) && ProgressOf(w', w'', id)
    ensures ProgressOf(w, w'', id)
  {
  }

  lemma {:induction false} DrainOne(w: World, id: Id) returns (es: seq<Event>)
    requires Inv(w) && id in Pending(w)
    ensures Path(w, es) && forall e | e in es :: WatcherWork(e)
    ensures Inv(After(w, es)) && ProgressOf(w, After(w, es), id) && id !in Pending(After(w, es))
    decreases Rank(w.terms[id]), 1
  {
    var e := NextWork(w.terms[id]);
    assert TermOk(w, id);
    WorkStep(w, id);
    StepKeeps(w, e);
    var rest := DrainRest(Apply(w, e), id, Rank(w.terms[id]));
    PathFrom(w, e, Apply(w, e), rest);
    ProgressComposes(w, Apply(w, e), After(Apply(w, e), rest), id);
    es := [e] + rest;
  }

  lemma {:induction false} DrainRest(w: World, id: Id, bound: nat) returns (es: seq<Event>)
    requires Inv(w) && (id in Pending(w) ==> Rank(w.terms[id]) < bound)
    ensures Path(w, es) && forall e | e in es :: WatcherWork(e)
    ensures Inv(After(w, es)) && ProgressOf(w, After(w, es), id) && id !in Pending(After(w, es))
    decreases bound, 0
  {
    es := [];
    if id in Pending(w) {
      es := DrainOne(w, id);
    }
  }

  lemma {:induction false} PathsCompose(w: World, a: seq<Event>, b: seq<Event>)
    requires Path(w, a) && Path(After(w, a), b)
    ensures Path(w, a + b) && After(w, a + b) == After(After(w, a), b)
    decreases |a|
  {
    if a == [] {
      assert a + b == b;
    } else {
      PathsCompose(Apply(w, a[0]), a[1..], b);
      assert (a + b)[1..] == a[1..] + b;
    }
  }

  ghost predicate SameLives(w: World, w': World) {
    w'.terms.Keys == w.terms.Keys && forall x | x in w.terms :: w'.terms[x].fate.Alive? <==> w.terms[x].fate.Alive?
  }

  lemma PendingShrinks(w: World, w': World, id: Id)
    requires ProgressOf(w, w', id) && id in Pending(w) && id !in Pending(w')
    ensures |Pending(w')| < |Pending(w)| && SameLives(w, w')
  {
    assert Pending(w') == Pending(w) - {id};
  }

  lemma {:induction false} Drain(w: World) returns (es: seq<Event>)
    requires Inv(w)
    ensures Path(w, es) && forall e | e in es :: WatcherWork(e)
    ensures Inv(After(w, es)) && Pending(After(w, es)) == {} && SameLives(w, After(w, es))
    decreases |Pending(w)|, 1
  {
    es := [];
    if Pending(w) != {} {
      var id :| id in Pending(w);
      es := DrainOne(w, id);
      var w' := After(w, es);
      PendingShrinks(w, w', id);
      es := DrainOn(w, es, w');
    }
  }

  lemma {:induction false} DrainOn(w: World, first: seq<Event>, w': World) returns (es: seq<Event>)
    requires Path(w, first) && w' == After(w, first) && SameLives(w, w')
    requires Inv(w') && forall e | e in first :: WatcherWork(e)
    ensures Path(w, es) && forall e | e in es :: WatcherWork(e)
    ensures Inv(After(w, es)) && Pending(After(w, es)) == {} && SameLives(w, After(w, es))
    decreases |Pending(w')|, 2
  {
    var rest := Drain(w');
    PathsCompose(w, first, rest);
    es := first + rest;
  }

  /**
   No exit is lost: from every reachable world the watchers alone can finish, killing nothing, and
   then every terminal of a live instance past its launch is marked running on disk exactly when
   its process lives.
   */
  lemma NoExitIsLost(r: Run, k: nat) returns (es: seq<Event>)
    requires IsRun(r) && k < |r.worlds|
    ensures Path(r.worlds[k], es) && forall e | e in es :: WatcherWork(e)
    ensures SameLives(r.worlds[k], After(r.worlds[k], es)) && AllExact(After(r.worlds[k], es))
  {
    InvAlways(r, k);
    es := Drain(r.worlds[k]);
    NothingPendingIsExact(After(r.worlds[k], es));
  }
}
