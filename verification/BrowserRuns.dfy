/** Timed bounds on the idle browser, and what every operation keeps of the tab registry. */
module BrowserRuns {
  import opened Wrappers
  import opened Browser

  // ---------- the tab registry ----------

  ghost predicate OwnTargets(tabs: seq<Entry>) {
    forall i, j | 0 <= i < j < |tabs| :: tabs[i].tab.target != tabs[j].tab.target
  }

  ghost predicate Registry(tabs: seq<Entry>) {
    OneTabPerChat(tabs) && OwnTargets(tabs)
  }

  /** Lists of entries that name the same chats one by one. */
  ghost predicate SameChats(tabs: seq<Entry>, after: seq<Entry>) {
    |after| == |tabs| && forall k | 0 <= k < |tabs| :: after[k].chat == tabs[k].chat
  }

  datatype Op =
    | Port(crashed: bool)
    | Touch(chat: Chat)
    | Poll(chat: Chat, crashed: bool, pages: seq<Page>)
    | Ensure(chat: Chat, answers: Answers)
    | Close(chat: Chat, crashed: bool)
    | Resize(chat: Chat, size: Size)
    | Point(chat: Chat, target: Target)
    | Quit

  function Do(s: State, op: Op, now: nat): State {
    match op
    case Port(crashed) => AskPort(s, now, crashed)
    case Touch(chat) => s.(tabs := Touched(s.tabs, chat, now))
    case Poll(chat, crashed, pages) => Adopted(s, chat, now, crashed, pages)
    case Ensure(chat, answers) => Ensured(s, chat, now, answers)
    case Close(chat, crashed) => Closed(s, chat, now, crashed)
    case Resize(chat, size) => Resized(s, chat, size)
    case Point(chat, target) => Pointed(s, chat, target)
    case Quit => Gone(s)
  }

  ghost function Targets(tabs: seq<Entry>): set<Target> {
    set e | e in tabs :: e.tab.target
  }

  /** Some other chat's tab drives `target`. */
  ghost predicate ClaimedByOther(tabs: seq<Entry>, chat: Chat, target: Target) {
    exists e :: e in tabs && e.chat != chat && e.tab.target == target
  }

  /** What keeps targets apart: Chromium hands out no target twice, and nobody selects a page another chat drives. */
  ghost predicate FreshTargets(s: State, op: Op) {
    match op
    case Ensure(_, a) => a.created.Some? ==> a.created.value !in Targets(s.tabs)
    case Point(chat, target) => !ClaimedByOther(s.tabs, chat, target)
    case _ => true
  }

  // ---------- one tab per chat, whatever the targets ----------

  lemma {:induction false} KeptIsOneTabPerChat(tabs: seq<Entry>, keep: Entry -> bool)
    requires OneTabPerChat(tabs)
    ensures OneTabPerChat(Kept(tabs, keep))
  {
    if tabs != [] {
      KeptIsOneTabPerChat(tabs[1..], keep);
      var rest := Kept(tabs[1..], keep);
      forall j | 0 <= j < |rest| ensures rest[j].chat != tabs[0].chat {
        assert rest[j] in tabs[1..];
      }
    }
  }

  lemma PushIsOneTabPerChat(tabs: seq<Entry>, chat: Chat, tab: Tab)
    requires OneTabPerChat(tabs)
    ensures OneTabPerChat(WithoutChat(tabs, chat) + [Entry(chat, tab)])
  {
    KeptIsOneTabPerChat(tabs, (e: Entry) => e.chat != chat);
    var kept := WithoutChat(tabs, chat);
    forall i | 0 <= i < |kept| ensures kept[i].chat != chat {
      assert kept[i] in kept;
    }
  }

  lemma SameChatsIsOneTabPerChat(tabs: seq<Entry>, after: seq<Entry>)
    requires OneTabPerChat(tabs) && SameChats(tabs, after)
    ensures OneTabPerChat(after)
  {
  }

  /** Every operation keeps one tab per chat, whatever targets it is given. */
  lemma OpKeepsOneTabPerChat(s: State, op: Op, now: nat)
    requires OneTabPerChat(s.tabs)
    ensures OneTabPerChat(Do(s, op, now).tabs)
  {
    match op {
      case Touch(chat) => SameChatsIsOneTabPerChat(s.tabs, Touched(s.tabs, chat, now));
      case Poll(chat, crashed, pages) => PollKeepsOneTabPerChat(s, chat, now, crashed, pages);
      case Ensure(chat, a) => EnsureKeepsOneTabPerChat(s, chat, now, a);
      case Close(chat, _) => KeptIsOneTabPerChat(s.tabs, (e: Entry) => e.chat != chat);
      case Point(chat, target) => SameChatsIsOneTabPerChat(s.tabs, Pointed(s, chat, target).tabs);
      case Resize(chat, size) => SameChatsIsOneTabPerChat(s.tabs, Resized(s, chat, size).tabs);
      case _ =>
    }
  }

  lemma PollKeepsOneTabPerChat(s: State, chat: Chat, now: nat, crashed: bool, pages: seq<Page>)
    requires OneTabPerChat(s.tabs)
    ensures OneTabPerChat(Adopted(s, chat, now, crashed, pages).tabs)
  {
    SameChatsIsOneTabPerChat(s.tabs, Touched(s.tabs, chat, now));
    var s1 := AskPort(s.(tabs := Touched(s.tabs, chat, now)), now, crashed);
    var found := Adoptable(s1.tabs, chat, pages);
    if s1.browser.Some? && found.Some? {
      PushIsOneTabPerChat(s1.tabs, chat, Tab(found.value, DEFAULT_VIEWPORT, now));
      SameChatsIsOneTabPerChat(WithoutChat(s1.tabs, chat) + [Entry(chat, Tab(found.value, DEFAULT_VIEWPORT, now))],
                               Adopted(s, chat, now, crashed, pages).tabs);
    }
  }

  lemma EnsureKeepsOneTabPerChat(s: State, chat: Chat, now: nat, a: Answers)
    requires OneTabPerChat(s.tabs)
    ensures OneTabPerChat(Ensured(s, chat, now, a).tabs)
  {
    SameChatsIsOneTabPerChat(s.tabs, Touched(s.tabs, chat, now));
    var registered := TabOf(s.tabs, chat).Some?;
    var s1 := s.(tabs := Touched(s.tabs, chat, now));
    ReopenKeepsOneTabPerChat(if registered then AskPort(s1, now, a.crashed) else s1, chat, now, a);
  }

  lemma ReopenKeepsOneTabPerChat(s: State, chat: Chat, now: nat, a: Answers)
    requires OneTabPerChat(s.tabs)
    ensures OneTabPerChat(Reopened(s, chat, now, a).tabs)
  {
    KeptIsOneTabPerChat(s.tabs, (e: Entry) => e.chat != chat);
    var s1 := AskPort(s.(tabs := WithoutChat(s.tabs, chat)), now, a.crashed);
    if a.created.Some? {
      PushIsOneTabPerChat(s1.tabs, chat, Tab(a.created.value, DEFAULT_VIEWPORT, now));
    }
  }

  lemma ReaperKeepsOneTabPerChat(s: State, now: nat, turns: set<Chat>, crashed: bool)
    requires OneTabPerChat(s.tabs)
    ensures OneTabPerChat(ReapedIfIdle(ReapedTabs(s, now, turns, crashed), now).tabs)
  {
    KeptIsOneTabPerChat(s.tabs, (e: Entry) => !MayBeReaped(e, now, turns));
  }

  // ---------- one chat per target, as long as targets are fresh ----------

  lemma {:induction false} KeptIsRegistry(tabs: seq<Entry>, keep: Entry -> bool)
    requires Registry(tabs)
    ensures Registry(Kept(tabs, keep)) && Targets(Kept(tabs, keep)) <= Targets(tabs)
  {
    if tabs != [] {
      KeptIsRegistry(tabs[1..], keep);
      var rest := Kept(tabs[1..], keep);
      forall j | 0 <= j < |rest| ensures rest[j].chat != tabs[0].chat && rest[j].tab.target != tabs[0].tab.target {
        assert rest[j] in tabs[1..];
      }
    }
  }

  lemma PushIsRegistry(tabs: seq<Entry>, chat: Chat, tab: Tab)
    requires Registry(tabs) && tab.target !in Targets(tabs)
    ensures Registry(WithoutChat(tabs, chat) + [Entry(chat, tab)])
  {
    KeptIsRegistry(tabs, (e: Entry) => e.chat != chat);
    var kept := WithoutChat(tabs, chat);
    forall i | 0 <= i < |kept| ensures kept[i].chat != chat && kept[i].tab.target != tab.target {
      assert kept[i] in kept;
    }
  }

  lemma TouchedIsRegistry(tabs: seq<Entry>, chat: Chat, now: nat)
    requires Registry(tabs)
    ensures Registry(Touched(tabs, chat, now)) && Targets(Touched(tabs, chat, now)) == Targets(tabs)
  {
    var after := Touched(tabs, chat, now);
    assert forall k | 0 <= k < |tabs| :: after[k].chat == tabs[k].chat && after[k].tab.target == tabs[k].tab.target;
    assert forall e | e in after :: e.tab.target in Targets(tabs);
    forall e | e in tabs ensures e.tab.target in Targets(after) {
      var k :| 0 <= k < |tabs| && tabs[k] == e;
      assert after[k] in after;
    }
  }

  /** Pointing a chat's tab at a page keeps the targets apart exactly when no other chat drives that page. */
  lemma PointingNeedsAnUnclaimedPage(s: State, chat: Chat, target: Target)
    requires Registry(s.tabs)
    ensures Registry(Pointed(s, chat, target).tabs) <==>
            TabOf(s.tabs, chat) == None || !ClaimedByOther(s.tabs, chat, target)
  {
    var i := IndexOf(s.tabs, chat);
    if i != -1 {
      var after := Pointed(s, chat, target).tabs;
      assert forall k | 0 <= k < |after| && k != i :: after[k] == s.tabs[k] && after[k].chat != chat;
      if ClaimedByOther(s.tabs, chat, target) {
        var k :| 0 <= k < |s.tabs| && s.tabs[k].chat != chat && s.tabs[k].tab.target == target;
        assert after[k].tab.target == after[i].tab.target;
      }
    }
  }

  lemma SameShapeIsRegistry(tabs: seq<Entry>, after: seq<Entry>)
    requires Registry(tabs) && |after| == |tabs|
    requires forall k | 0 <= k < |tabs| :: after[k].chat == tabs[k].chat && after[k].tab.target == tabs[k].tab.target
    ensures Registry(after)
  {
  }

  lemma PollKeepsRegistry(s: State, chat: Chat, now: nat, crashed: bool, pages: seq<Page>)
    requires Registry(s.tabs)
    ensures Registry(Adopted(s, chat, now, crashed, pages).tabs)
  {
    TouchedIsRegistry(s.tabs, chat, now);
    var s1 := AskPort(s.(tabs := Touched(s.tabs, chat, now)), now, crashed);
    var found := Adoptable(s1.tabs, chat, pages);
    if s1.browser.Some? && found.Some? {
      PushIsRegistry(s1.tabs, chat, Tab(found.value, DEFAULT_VIEWPORT, now));
      SameShapeIsRegistry(WithoutChat(s1.tabs, chat) + [Entry(chat, Tab(found.value, DEFAULT_VIEWPORT, now))],
                          Adopted(s, chat, now, crashed, pages).tabs);
    }
  }

  /** Every operation keeps one tab per chat and one chat per target. */
  lemma OpKeepsRegistry(s: State, op: Op, now: nat)
    requires Registry(s.tabs) && FreshTargets(s, op)
    ensures Registry(Do(s, op, now).tabs)
  {
    match op {
      case Touch(chat) => TouchedIsRegistry(s.tabs, chat, now);
      case Poll(chat, crashed, pages) => PollKeepsRegistry(s, chat, now, crashed, pages);
      case Ensure(chat, a) => EnsureKeepsRegistry(s, chat, now, a);
      case Close(chat, _) => KeptIsRegistry(s.tabs, (e: Entry) => e.chat != chat);
      case Point(chat, target) => PointingNeedsAnUnclaimedPage(s, chat, target);
      case Resize(chat, size) => SameShapeIsRegistry(s.tabs, Resized(s, chat, size).tabs);
      case _ =>
    }
  }

  lemma EnsureKeepsRegistry(s: State, chat: Chat, now: nat, a: Answers)
    requires Registry(s.tabs) && FreshTargets(s, Ensure(chat, a))
    ensures Registry(Ensured(s, chat, now, a).tabs)
  {
    TouchedIsRegistry(s.tabs, chat, now);
    var registered := TabOf(s.tabs, chat).Some?;
    var s1 := s.(tabs := Touched(s.tabs, chat, now));
    ReopenKeepsRegistry(if registered then AskPort(s1, now, a.crashed) else s1, chat, now, a);
  }

  lemma ReopenKeepsRegistry(s: State, chat: Chat, now: nat, a: Answers)
    requires Registry(s.tabs) && (a.created.Some? ==> a.created.value !in Targets(s.tabs))
    ensures Registry(Reopened(s, chat, now, a).tabs)
  {
    var drop := (e: Entry) => e.chat != chat;
    KeptIsRegistry(s.tabs, drop);
    var s1 := AskPort(s.(tabs := WithoutChat(s.tabs, chat)), now, a.crashed);
    assert Registry(s1.tabs) && Targets(s1.tabs) <= Targets(s.tabs);
    if a.created.Some? {
      PushIsRegistry(s1.tabs, chat, Tab(a.created.value, DEFAULT_VIEWPORT, now));
    }
  }

  lemma ReaperKeepsRegistry(s: State, now: nat, turns: set<Chat>, crashed: bool)
    requires Registry(s.tabs)
    ensures Registry(ReapedIfIdle(ReapedTabs(s, now, turns, crashed), now).tabs)
  {
    KeptIsRegistry(s.tabs, (e: Entry) => !MayBeReaped(e, now, turns));
  }

  /**
   A tab in use, or whose chat runs a turn, survives a reaper tick exactly when the browser does,
   and the browser's own clock does not look at turns.
   */
  lemma ReaperSparesUsedTabs(s: State, now: nat, turns: set<Chat>, crashed: bool, e: Entry)
    requires e in s.tabs && !MayBeReaped(e, now, turns)
    ensures var reaped := exists x :: x in s.tabs && MayBeReaped(x, now, turns);
            e in ReapedIfIdle(ReapedTabs(s, now, turns, crashed), now).tabs <==>
              s.browser == None || (!Idle(s, now) && !(crashed && reaped))
  {
    var keep := (x: Entry) => !MayBeReaped(x, now, turns);
    AllKept(s.tabs, keep);
    assert e in Kept(s.tabs, keep);
  }

  lemma {:induction false} AllKept(tabs: seq<Entry>, keep: Entry -> bool)
    ensures |Kept(tabs, keep)| == |tabs| <==> forall x | x in tabs :: keep(x)
  {
    if tabs != [] {
      AllKept(tabs[1..], keep);
      assert forall x :: x in tabs <==> x == tabs[0] || x in tabs[1..];
    }
  }

  /** Polls, adoption included, never change the viewport a chat's tab has. */
  lemma PollsKeepViewports(s: State, op: Op, now: nat, before: Entry, after: Entry)
    requires OneTabPerChat(s.tabs) && (op.Port? || op.Touch? || op.Poll?)
    requires before in s.tabs && after in Do(s, op, now).tabs && before.chat == after.chat
    ensures after.tab.viewport == before.tab.viewport
  {
    if !op.Port? {
      var touched := Touched(s.tabs, op.chat, now);
      var i :| 0 <= i < |s.tabs| && s.tabs[i] == before;
      if after in touched {
        var k :| 0 <= k < |touched| && touched[k] == after;
        assert s.tabs[k].chat == after.chat && k == i;
      }
      if before.chat == op.chat {
        assert TabOf(s.tabs, op.chat) == Some(before.tab);
      }
    }
  }

  /**
   A poll in a running browser points the chat at a page it did not drive exactly when the chat is
   on no shown page and some page shows something and is nobody's.
   */
  lemma PollMovesIff(s: State, chat: Chat, now: nat, crashed: bool, pages: seq<Page>)
    requires OneTabPerChat(s.tabs) && Do(s, Poll(chat, crashed, pages), now).browser.Some?
    ensures var after := Do(s, Poll(chat, crashed, pages), now).tabs;
            && Follows(s.tabs, after, chat, now, pages)
            && ((exists t :: Drives(after, chat, t) && !Drives(s.tabs, chat, t)) <==>
                !OnShownPage(s.tabs, chat, pages) && exists k: nat :: Free(s.tabs, pages, k))
  {
    PollFollows(s, chat, now, crashed, pages);
    var after := Do(s, Poll(chat, crashed, pages), now).tabs;
    if k: nat :| Free(s.tabs, pages, k) {
      var first := FirstOfFree(s.tabs, pages, k);
      assert !Drives(s.tabs, chat, pages[first].target);
    }
  }

  lemma {:induction false} FirstOfFree(tabs: seq<Entry>, pages: seq<Page>, k: nat) returns (first: nat)
    requires Free(tabs, pages, k)
    ensures FirstFree(tabs, pages, first)
  {
    if j: nat :| j < k && Free(tabs, pages, j) {
      first := FirstOfFree(tabs, pages, j);
    } else {
      first := k;
    }
  }

  // ---------- timed runs ----------

  /** The reaper thread last ticked at `lastTick`; it ticks again REAPER_INTERVAL later. */
  datatype World = World(now: nat, lastTick: nat, s: State)

  datatype Event =
    | Wait(until: nat)
    | Call(op: Op)
    | ReaperTick(turns: set<Chat>, crashed: bool)

  ghost predicate Enabled(w: World, e: Event) {
    match e
    case Wait(until) => w.now <= until <= w.lastTick + REAPER_INTERVAL
    case Call(_) => true
    case ReaperTick(_, _) => w.now == w.lastTick + REAPER_INTERVAL
  }

  function Next(w: World, e: Event): World {
    match e
    case Wait(until) => w.(now := until)
    case Call(op) => w.(s := Do(w.s, op, w.now))
    case ReaperTick(turns, crashed) =>
      World(w.now, w.now, ReapedIfIdle(ReapedTabs(w.s, w.now, turns, crashed), w.now))
  }

  datatype Run = Run(worlds: seq<World>, events: seq<Event>)

  ghost predicate IsRun(r: Run) {
    && |r.worlds| == |r.events| + 1
    && r.worlds[0] == World(r.worlds[0].now, r.worlds[0].now, State(None, [], 0))
    && forall k | 0 <= k < |r.events| ::
         Enabled(r.worlds[k], r.events[k]) && r.worlds[k + 1] == Next(r.worlds[k], r.events[k])
  }

  /** Clocks never run ahead, and launch numbers are never handed out twice. */
  ghost predicate ClocksOk(s: State, now: nat) {
    && (s.browser.Some? ==> s.browser.value.lastUsed <= now && s.browser.value.launch < s.launches)
    && (forall e | e in s.tabs :: e.tab.lastUsed <= now)
  }

  ghost predicate Sane(w: World) {
    w.lastTick <= w.now <= w.lastTick + REAPER_INTERVAL && ClocksOk(w.s, w.now) && OneTabPerChat(w.s.tabs)
  }

  lemma OpKeepsClocks(s: State, op: Op, now: nat)
    requires ClocksOk(s, now)
    ensures ClocksOk(Do(s, op, now), now) && s.launches <= Do(s, op, now).launches
  {
    match op {
      case Ensure(chat, a) => EnsureKeepsClocks(s, chat, now, a);
      case Poll(chat, crashed, pages) => PollKeepsClocks(s, chat, now, crashed, pages);
      case _ =>
    }
  }

  lemma PollKeepsClocks(s: State, chat: Chat, now: nat, crashed: bool, pages: seq<Page>)
    requires ClocksOk(s, now)
    ensures ClocksOk(Adopted(s, chat, now, crashed, pages), now)
    ensures s.launches == Adopted(s, chat, now, crashed, pages).launches
  {
    var s1 := AskPort(s.(tabs := Touched(s.tabs, chat, now)), now, crashed);
    assert ClocksOk(s1, now);
  }

  lemma EnsureKeepsClocks(s: State, chat: Chat, now: nat, a: Answers)
    requires ClocksOk(s, now)
    ensures ClocksOk(Ensured(s, chat, now, a), now) && s.launches <= Ensured(s, chat, now, a).launches
  {
    var s1 := s.(tabs := Touched(s.tabs, chat, now));
    assert ClocksOk(s1, now);
    ReopenKeepsClocks(if TabOf(s.tabs, chat).Some? then AskPort(s1, now, a.crashed) else s1, chat, now, a);
  }

  lemma ReopenKeepsClocks(s: State, chat: Chat, now: nat, a: Answers)
    requires ClocksOk(s, now)
    ensures ClocksOk(Reopened(s, chat, now, a), now) && s.launches <= Reopened(s, chat, now, a).launches
  {
    var s1 := AskPort(s.(tabs := WithoutChat(s.tabs, chat)), now, a.crashed);
    assert ClocksOk(s1, now);
  }

  lemma SaneStep(w: World, e: Event)
    requires Sane(w) && Enabled(w, e)
    ensures Sane(Next(w, e)) && w.s.launches <= Next(w, e).s.launches
  {
    match e {
      case Wait(_) =>
      case Call(op) =>
        OpKeepsOneTabPerChat(w.s, op, w.now);
        OpKeepsClocks(w.s, op, w.now);
      case ReaperTick(turns, crashed) => ReaperKeepsOneTabPerChat(w.s, w.now, turns, crashed);
    }
  }

  lemma {:induction false} SaneAlways(r: Run, k: nat)
    requires IsRun(r) && k < |r.worlds|
    ensures Sane(r.worlds[k])
  {
    if k > 0 {
      SaneAlways(r, k - 1);
      SaneStep(r.worlds[k - 1], r.events[k - 1]);
    }
  }

  /** In no run does a poll, adoption included, change a chat's viewport. */
  lemma PollsKeepViewportsAlways(r: Run, k: nat, before: Entry, after: Entry)
    requires IsRun(r) && k < |r.events| && r.events[k].Call?
    requires r.events[k].op.Port? || r.events[k].op.Touch? || r.events[k].op.Poll?
    requires before in r.worlds[k].s.tabs && after in r.worlds[k + 1].s.tabs && before.chat == after.chat
    ensures after.tab.viewport == before.tab.viewport
  {
    SaneAlways(r, k);
    PollsKeepViewports(r.worlds[k].s, r.events[k].op, r.worlds[k].now, before, after);
  }

  /** As long as every call's targets are fresh, no two chats drive one page. */
  lemma {:induction false} TargetsStayApart(r: Run, k: nat)
    requires IsRun(r) && k < |r.worlds|
    requires forall j | 0 <= j < k && r.events[j].Call? :: FreshTargets(r.worlds[j].s, r.events[j].op)
    ensures Registry(r.worlds[k].s.tabs)
  {
    if k > 0 {
      TargetsStayApart(r, k - 1);
      var w := r.worlds[k - 1];
      match r.events[k - 1] {
        case Wait(_) =>
        case Call(op) => OpKeepsRegistry(w.s, op, w.now);
        case ReaperTick(turns, crashed) => ReaperKeepsRegistry(w.s, w.now, turns, crashed);
      }
    }
  }

  // ---------- a chat keeps the page it is on ----------

  /** Browser process number `launch` is running. */
  ghost predicate Up(w: World, launch: nat) {
    w.s.browser.Some? && w.s.browser.value.launch == launch
  }

  /** Events that give a chat on `target` no reason to leave it, whatever they do to other chats. */
  ghost predicate LeavesPage(e: Event, chat: Chat, target: Target) {
    match e
    case Wait(_) => true
    case ReaperTick(turns, _) => chat in turns
    case Call(Poll(c, _, pages)) => c == chat ==> Shown(pages, target)
    case Call(Ensure(c, _)) => c != chat
    case Call(Close(c, _)) => c != chat
    case Call(Point(c, _)) => c != chat
    case Call(_) => true
  }

  lemma SameTargetsDrive(tabs: seq<Entry>, after: seq<Entry>, chat: Chat, target: Target)
    requires Drives(tabs, chat, target) && SameChats(tabs, after)
    requires forall i | 0 <= i < |tabs| && tabs[i].chat == chat :: after[i].tab.target == tabs[i].tab.target
    ensures Drives(after, chat, target)
  {
    var i :| 0 <= i < |tabs| && tabs[i].chat == chat && tabs[i].tab.target == target;
    assert after[i].chat == chat;
  }

  lemma KeptDrive(tabs: seq<Entry>, keep: Entry -> bool, more: seq<Entry>, chat: Chat, target: Target)
    requires Drives(tabs, chat, target) && forall e | e in tabs && e.chat == chat :: keep(e)
    ensures Drives(Kept(tabs, keep), chat, target) && Drives(Kept(tabs, keep) + more, chat, target)
  {
    var i :| 0 <= i < |tabs| && tabs[i].chat == chat && tabs[i].tab.target == target;
    var kept := Kept(tabs, keep);
    assert tabs[i] in kept;
    var j :| 0 <= j < |kept| && kept[j] == tabs[i];
    assert (kept + more)[j] == tabs[i];
  }

  lemma TickLeavesPage(s: State, now: nat, turns: set<Chat>, crashed: bool, chat: Chat, target: Target)
    requires Drives(s.tabs, chat, target) && chat in turns
    requires ReapedIfIdle(ReapedTabs(s, now, turns, crashed), now).browser.Some?
    ensures Drives(ReapedIfIdle(ReapedTabs(s, now, turns, crashed), now).tabs, chat, target)
  {
    KeptDrive(s.tabs, (e: Entry) => !MayBeReaped(e, now, turns), [], chat, target);
  }

  lemma OwnPollLeavesPage(s: State, now: nat, crashed: bool, pages: seq<Page>, chat: Chat, target: Target)
    requires OneTabPerChat(s.tabs) && Drives(s.tabs, chat, target) && Shown(pages, target)
    requires Adopted(s, chat, now, crashed, pages).browser.Some?
    ensures Drives(Adopted(s, chat, now, crashed, pages).tabs, chat, target)
  {
    PollFollows(s, chat, now, crashed, pages);
    assert OnShownPage(s.tabs, chat, pages);
    SameTargetsDrive(s.tabs, Adopted(s, chat, now, crashed, pages).tabs, chat, target);
  }

  lemma OtherPollLeavesPage(s: State, c: Chat, now: nat, crashed: bool, pages: seq<Page>, chat: Chat, target: Target)
    requires Drives(s.tabs, chat, target) && c != chat
    requires Adopted(s, c, now, crashed, pages).browser.Some?
    ensures Drives(Adopted(s, c, now, crashed, pages).tabs, chat, target)
  {
    var touched := Touched(s.tabs, c, now);
    SameTargetsDrive(s.tabs, touched, chat, target);
    var found := Adoptable(touched, c, pages);
    if found.Some? {
      var viewport := if TabOf(s.tabs, c).Some? then TabOf(s.tabs, c).value.viewport else DEFAULT_VIEWPORT;
      KeptDrive(touched, (e: Entry) => e.chat != c, [Entry(c, Tab(found.value, viewport, now))], chat, target);
    }
  }

  /** Another chat's EnsureTab keeps the entry as long as it keeps the process. */
  lemma EnsureLeavesPage(s: State, c: Chat, now: nat, a: Answers, launch: nat, chat: Chat, target: Target)
    requires Drives(s.tabs, chat, target) && c != chat
    requires s.browser.Some? && s.browser.value.launch == launch < s.launches
    requires var after := Ensured(s, c, now, a); after.browser.Some? && after.browser.value.launch == launch
    ensures Drives(Ensured(s, c, now, a).tabs, chat, target)
  {
    var s1 := s.(tabs := Touched(s.tabs, c, now));
    SameTargetsDrive(s.tabs, s1.tabs, chat, target);
    var s2 := if TabOf(s.tabs, c).Some? then AskPort(s1, now, a.crashed) else s1;
    if s2.browser.Some? {
      ReopenLeavesPage(s2, c, now, a, launch, chat, target);
    }
  }

  lemma ReopenLeavesPage(s: State, c: Chat, now: nat, a: Answers, launch: nat, chat: Chat, target: Target)
    requires Drives(s.tabs, chat, target) && c != chat
    requires s.browser.Some? && s.browser.value.launch == launch < s.launches
    ensures var after := Reopened(s, c, now, a);
            after.browser.Some? && after.browser.value.launch == launch ==> Drives(after.tabs, chat, target)
  {
    var drop := (e: Entry) => e.chat != c;
    KeptDrive(s.tabs, drop, [], chat, target);
    var s1 := AskPort(s.(tabs := WithoutChat(s.tabs, c)), now, a.crashed);
    if s1.browser.Some? && a.created.Some? {
      KeptDrive(s1.tabs, drop, [Entry(c, Tab(a.created.value, DEFAULT_VIEWPORT, now))], chat, target);
    }
  }

  lemma CloseLeavesPage(s: State, c: Chat, now: nat, crashed: bool, chat: Chat, target: Target)
    requires Drives(s.tabs, chat, target) && c != chat && Closed(s, c, now, crashed).browser.Some?
    ensures Drives(Closed(s, c, now, crashed).tabs, chat, target)
  {
    KeptDrive(s.tabs, (e: Entry) => e.chat != c, [], chat, target);
  }

  lemma OpLeavesPage(s: State, op: Op, now: nat, launch: nat, chat: Chat, target: Target)
    requires OneTabPerChat(s.tabs) && Drives(s.tabs, chat, target) && LeavesPage(Call(op), chat, target)
    requires s.browser.Some? && s.browser.value.launch == launch < s.launches
    requires Do(s, op, now).browser.Some? && Do(s, op, now).browser.value.launch == launch
    ensures Drives(Do(s, op, now).tabs, chat, target)
  {
    match op {
      case Touch(c) => SameTargetsDrive(s.tabs, Touched(s.tabs, c, now), chat, target);
      case Poll(c, crashed, pages) =>
        if c == chat {
          OwnPollLeavesPage(s, now, crashed, pages, chat, target);
        } else {
          OtherPollLeavesPage(s, c, now, crashed, pages, chat, target);
        }
      case Ensure(c, a) => EnsureLeavesPage(s, c, now, a, launch, chat, target);
      case Close(c, crashed) => CloseLeavesPage(s, c, now, crashed, chat, target);
      case Resize(c, size) => SameTargetsDrive(s.tabs, Resized(s, c, size).tabs, chat, target);
      case Point(c, t) => SameTargetsDrive(s.tabs, Pointed(s, c, t).tabs, chat, target);
      case _ =>
    }
  }

  /** While process `launch` is up, the chat drives `target`. */
  ghost predicate StaysOn(w: World, launch: nat, chat: Chat, target: Target) {
    launch < w.s.launches && (Up(w, launch) ==> Drives(w.s.tabs, chat, target))
  }

  lemma LeavesPageStep(w: World, e: Event, launch: nat, chat: Chat, target: Target)
    requires Sane(w) && Enabled(w, e) && LeavesPage(e, chat, target) && StaysOn(w, launch, chat, target)
    ensures StaysOn(Next(w, e), launch, chat, target)
  {
    SaneStep(w, e);
    if Up(Next(w, e), launch) {
      LaunchesAreNew(w, e, launch);
      match e {
        case Wait(_) =>
        case ReaperTick(turns, crashed) => TickLeavesPage(w.s, w.now, turns, crashed, chat, target);
        case Call(op) => OpLeavesPage(w.s, op, w.now, launch, chat, target);
      }
    }
  }

  /** `after` runs the process of `s`, or none, or one launched since. */
  ghost predicate SameProcess(s: State, after: State) {
    after.browser.Some? ==>
      (s.browser.Some? && after.browser.value.launch == s.browser.value.launch)
      || after.browser.value.launch >= s.launches
  }

  lemma OpLaunches(s: State, op: Op, now: nat)
    ensures SameProcess(s, Do(s, op, now))
  {
    match op {
      case Ensure(chat, a) => EnsureLaunches(s, chat, now, a);
      case Poll(chat, crashed, pages) =>
        assert SameProcess(s, AskPort(s.(tabs := Touched(s.tabs, chat, now)), now, crashed));
      case _ =>
    }
  }

  lemma EnsureLaunches(s: State, chat: Chat, now: nat, a: Answers)
    ensures SameProcess(s, Ensured(s, chat, now, a))
  {
    var s1 := s.(tabs := Touched(s.tabs, chat, now));
    ReopenLaunches(if TabOf(s.tabs, chat).Some? then AskPort(s1, now, a.crashed) else s1, chat, now, a);
  }

  lemma ReopenLaunches(s: State, chat: Chat, now: nat, a: Answers)
    ensures SameProcess(s, Reopened(s, chat, now, a))
  {
    assert SameProcess(s, AskPort(s.(tabs := WithoutChat(s.tabs, chat)), now, a.crashed));
  }

  /** A process that is down never comes back under its number. */
  lemma LaunchesAreNew(w: World, e: Event, launch: nat)
    requires launch < w.s.launches && Up(Next(w, e), launch)
    ensures Up(w, launch)
  {
    match e {
      case Wait(_) =>
      case Call(op) => OpLaunches(w.s, op, w.now);
      case ReaperTick(turns, crashed) => assert SameProcess(w.s, ReapedTabs(w.s, w.now, turns, crashed));
    }
  }

  /**
   As long as every page list a chat's polls see shows its page, and nobody closes or points its tab,
   the chat keeps that page through any calls of any chats, for as long as the browser process runs.
   */
  lemma {:induction false} ChatKeepsItsPage(r: Run, i: nat, j: nat, launch: nat, chat: Chat, target: Target)
    requires IsRun(r) && i <= j < |r.worlds|
    requires Up(r.worlds[i], launch) && Drives(r.worlds[i].s.tabs, chat, target)
    requires forall k | i <= k < j :: LeavesPage(r.events[k], chat, target)
    ensures StaysOn(r.worlds[j], launch, chat, target)
  {
    if i == j {
      SaneAlways(r, i);
    } else {
      ChatKeepsItsPage(r, i, j - 1, launch, chat, target);
      RunLeavesPage(r, j - 1, launch, chat, target);
    }
  }

  lemma RunLeavesPage(r: Run, k: nat, launch: nat, chat: Chat, target: Target)
    requires IsRun(r) && k < |r.events| && LeavesPage(r.events[k], chat, target)
    requires StaysOn(r.worlds[k], launch, chat, target)
    ensures StaysOn(r.worlds[k + 1], launch, chat, target)
  {
    SaneAlways(r, k);
    LeavesPageStep(r.worlds[k], r.events[k], launch, chat, target);
  }

  /** One call of EnsureTab for a new chat on a launched or running browser adds its tab. */
  lemma FirstEnsure(s: State, chat: Chat, now: nat, target: Target)
    requires (forall e | e in s.tabs :: e.chat != chat) && (s.browser == None ==> s.tabs == [])
    requires s.browser.Some? ==> s.browser.value.lastUsed == now
    ensures var after := Ensured(s, chat, now, Answers(true, false, true, Some(target)));
            && after.tabs == s.tabs + [Entry(chat, Tab(target, DEFAULT_VIEWPORT, now))]
            && after.browser.Some? && after.browser.value.lastUsed == now
  {
    NoTab(s.tabs, chat);
    NothingDropped(s.tabs, chat);
  }

  lemma {:induction false} NothingDropped(tabs: seq<Entry>, chat: Chat)
    requires forall e | e in tabs :: e.chat != chat
    ensures WithoutChat(tabs, chat) == tabs
  {
    if tabs != [] {
      assert tabs[0] in tabs && forall e | e in tabs[1..] :: e in tabs;
      NothingDropped(tabs[1..], chat);
      assert WithoutChat(tabs, chat) == [tabs[0]] + WithoutChat(tabs[1..], chat);
    }
  }

  ghost function Last(r: Run): World
    requires r.worlds != []
  {
    r.worlds[|r.worlds| - 1]
  }

  ghost function Extended(r: Run, e: Event): Run
    requires r.worlds != []
  {
    Run(r.worlds + [Next(Last(r), e)], r.events + [e])
  }

  lemma ExtendedIsRun(r: Run, e: Event)
    requires IsRun(r) && Enabled(Last(r), e)
    ensures IsRun(Extended(r, e)) && Last(Extended(r, e)) == Next(Last(r), e)
  {
    var more := Extended(r, e);
    forall k | 0 <= k < |more.events|
      ensures Enabled(more.worlds[k], more.events[k]) && more.worlds[k + 1] == Next(more.worlds[k], more.events[k])
    {
      if k < |r.events| {
        assert Enabled(r.worlds[k], r.events[k]);
      }
    }
  }

  /** A run in which two chats come to drive one page, since selecting a page asks nobody. */
  lemma SelectedPageCanBeShared(a: Chat, b: Chat, t: Target, u: Target) returns (r: Run)
    requires a != b && t != u
    ensures IsRun(r) && |r.worlds| == 4 && r.events[2] == Call(Point(b, t))
    ensures !OwnTargets(r.worlds[3].s.tabs)
  {
    var open := Answers(true, false, true, Some(t));
    var open' := Answers(true, false, true, Some(u));
    var w0 := World(0, 0, State(None, [], 0));
    var w1 := Next(w0, Call(Ensure(a, open)));
    var w2 := Next(w1, Call(Ensure(b, open')));
    r := ThreeCalls(w0, Ensure(a, open), Ensure(b, open'), Point(b, t));
    FirstEnsure(w0.s, a, 0, t);
    FirstEnsure(w1.s, b, 0, u);
    PointSecond(w2.s, w1.s.tabs[0], b, t);
    assert r.worlds[3].s.tabs[0].tab.target == r.worlds[3].s.tabs[1].tab.target;
  }

  lemma ThreeCalls(w: World, a: Op, b: Op, c: Op) returns (r: Run)
    requires w == World(0, 0, State(None, [], 0))
    ensures IsRun(r) && r.events == [Call(a), Call(b), Call(c)]
    ensures r.worlds == [w, Next(w, Call(a)), Next(Next(w, Call(a)), Call(b)),
                         Next(Next(Next(w, Call(a)), Call(b)), Call(c))]
  {
    r := Run([w], []);
    ExtendedIsRun(r, Call(a));
    r := Extended(r, Call(a));
    ExtendedIsRun(r, Call(b));
    r := Extended(r, Call(b));
    ExtendedIsRun(r, Call(c));
    r := Extended(r, Call(c));
  }

  lemma PointSecond(s: State, first: Entry, b: Chat, t: Target)
    requires first.chat != b && |s.tabs| == 2 && s.tabs[0] == first && s.tabs[1].chat == b
    ensures Pointed(s, b, t).tabs == [first, Entry(b, s.tabs[1].tab.(target := t))]
  {
    assert s.tabs[1..][0] == s.tabs[1];
  }

  // ---------- a tab lost in the middle of a turn ----------

  /** The chat opened its tab first thing; all else is time passing and ticks that find it in a turn. */
  ghost predicate InTurnThroughout(r: Run, chat: Chat, target: Target) {
    && r.events != [] && r.events[0] == Call(Ensure(chat, Answers(true, false, true, Some(target))))
    && forall k | 1 <= k < |r.events| :: r.events[k].Wait? || (r.events[k].ReaperTick? && chat in r.events[k].turns)
  }

  /** The chat's tab is open in a browser whose clock stands at 0. */
  ghost predicate TabOpen(s: State, chat: Chat, target: Target) {
    && s.tabs == [Entry(chat, Tab(target, DEFAULT_VIEWPORT, 0))]
    && s.browser.Some? && s.browser.value.lastUsed == 0
  }

  /** Ticks before IDLE_REAP leave the tab alone, however long the chat has not touched it. */
  lemma TickInTurn(s: State, chat: Chat, target: Target, now: nat)
    requires TabOpen(s, chat, target)
    ensures ReapedTabs(s, now, {chat}, false) == s
    ensures ReapedIfIdle(s, now) == if now < IDLE_REAP then s else Gone(s)
  {
    var keep := (e: Entry) => !MayBeReaped(e, now, {chat});
    AllKept(s.tabs, keep);
  }

  lemma {:induction false} TicksInTurn(chat: Chat, target: Target, n: nat) returns (r: Run)
    requires n * REAPER_INTERVAL < IDLE_REAP
    ensures IsRun(r) && InTurnThroughout(r, chat, target)
    ensures Last(r).now == Last(r).lastTick == n * REAPER_INTERVAL && TabOpen(Last(r).s, chat, target)
  {
    if n == 0 {
      var w := World(0, 0, State(None, [], 0));
      var open := Call(Ensure(chat, Answers(true, false, true, Some(target))));
      FirstEnsure(w.s, chat, 0, target);
      r := Run([w, Next(w, open)], [open]);
    } else {
      var before := TicksInTurn(chat, target, n - 1);
      TickInTurn(Last(before).s, chat, target, n * REAPER_INTERVAL);
      r := OneMoreTick(before, chat, target);
    }
  }

  lemma OneMoreTick(before: Run, chat: Chat, target: Target) returns (r: Run)
    requires IsRun(before) && InTurnThroughout(before, chat, target) && Last(before).now == Last(before).lastTick
    ensures IsRun(r) && InTurnThroughout(r, chat, target)
    ensures |r.worlds| == |before.worlds| + 2 && r.worlds[|before.worlds| - 1] == Last(before)
    ensures var now := Last(before).now + REAPER_INTERVAL;
            Last(r) == World(now, now, ReapedIfIdle(ReapedTabs(Last(before).s, now, {chat}, false), now))
  {
    var wait, tick := Wait(Last(before).now + REAPER_INTERVAL), ReaperTick({chat}, false);
    ExtendedIsRun(before, wait);
    r := Extended(before, wait);
    ExtendedIsRun(r, tick);
    r := Extended(r, tick);
  }

  /**
   A run in which a chat loses its tab in the middle of a turn: every tick spares the tab for the
   turn's sake, and IDLE_REAP after the last call the whole browser goes.
   */
  lemma TurnDoesNotKeepTheBrowser(chat: Chat, target: Target) returns (r: Run)
    ensures IsRun(r) && InTurnThroughout(r, chat, target) && Last(r).now == IDLE_REAP
    ensures |r.worlds| > 2 && TabOpen(r.worlds[|r.worlds| - 3].s, chat, target)
    ensures Last(r).s.browser == None && Last(r).s.tabs == []
  {
    var before := TicksInTurn(chat, target, IDLE_REAP / REAPER_INTERVAL - 1);
    TickInTurn(Last(before).s, chat, target, IDLE_REAP);
    r := OneMoreTick(before, chat, target);
  }

  // ---------- an unused browser is gone in time ----------

  /**
   With no tab open since `t`, process `launch` is down, or its clock stopped by `t` and the reaper
   has not seen it expire.
   */
  ghost predicate Expiring(w: World, launch: nat, t: nat) {
    && launch < w.s.launches
    && (Up(w, launch) ==> w.s.browser.value.lastUsed <= t && w.lastTick <= t + IDLE_REAP)
  }

  lemma ExpiringStep(w: World, e: Event, launch: nat, t: nat)
    requires Sane(w) && Enabled(w, e) && w.s.tabs == [] && Next(w, e).s.tabs == [] && Expiring(w, launch, t)
    ensures Expiring(Next(w, e), launch, t)
  {
  }

  /** Once no tab is open and none opens, no sequence of calls keeps the browser up past IDLE_REAP + REAPER_INTERVAL. */
  lemma {:induction false} UnusedBrowserIsReaped(r: Run, i: nat, j: nat, launch: nat)
    requires IsRun(r) && i <= j < |r.worlds|
    requires forall k | i <= k <= j :: r.worlds[k].s.tabs == []
    requires Up(r.worlds[i], launch)
    ensures Expiring(r.worlds[j], launch, r.worlds[i].now)
    ensures Up(r.worlds[j], launch) ==> r.worlds[j].now <= r.worlds[i].now + IDLE_REAP + REAPER_INTERVAL
  {
    SaneAlways(r, j);
    if i < j {
      UnusedBrowserIsReaped(r, i, j - 1, launch);
      SaneAlways(r, j - 1);
      ExpiringStep(r.worlds[j - 1], r.events[j - 1], launch, r.worlds[i].now);
    }
  }

  // ---------- an abandoned browser is gone in time ----------

  /** Nobody opens, looks at or adopts a tab, and no chat with a tab runs a turn. */
  ghost predicate Untouched(w: World, e: Event) {
    match e
    case Wait(_) => true
    case Call(op) => !op.Touch? && !op.Poll? && !op.Ensure?
    case ReaperTick(turns, _) => forall x | x in w.s.tabs :: x.chat !in turns
  }

  ghost predicate Abandoned(w: World, launch: nat, t: nat) {
    && (w.s.tabs != [] ==> (forall e | e in w.s.tabs :: e.tab.lastUsed <= t) && w.lastTick <= t + TAB_IDLE_TTL)
    && launch < w.s.launches
    && (w.s.tabs == [] ==> Expiring(w, launch, t + TAB_IDLE_TTL + REAPER_INTERVAL))
  }

  lemma AbandonedTick(w: World, turns: set<Chat>, crashed: bool, launch: nat, t: nat)
    requires Sane(w) && Enabled(w, ReaperTick(turns, crashed)) && Abandoned(w, launch, t)
    requires forall x | x in w.s.tabs :: x.chat !in turns
    ensures Abandoned(Next(w, ReaperTick(turns, crashed)), launch, t)
  {
    var keep := (x: Entry) => !MayBeReaped(x, w.now, turns);
    var kept := Kept(w.s.tabs, keep);
    if kept != [] {
      assert kept[0] in w.s.tabs && keep(kept[0]);
    }
  }

  lemma AbandonedCall(w: World, op: Op, launch: nat, t: nat)
    requires Sane(w) && Abandoned(w, launch, t) && !op.Touch? && !op.Poll? && !op.Ensure?
    ensures Abandoned(Next(w, Call(op)), launch, t)
  {
    var tabs := Next(w, Call(op)).s.tabs;
    if op.Resize? || op.Point? {
      assert |tabs| == |w.s.tabs| && forall k | 0 <= k < |tabs| :: tabs[k].tab.lastUsed == w.s.tabs[k].tab.lastUsed;
    }
  }

  lemma AbandonedStep(w: World, e: Event, launch: nat, t: nat)
    requires Sane(w) && Enabled(w, e) && Untouched(w, e) && Abandoned(w, launch, t)
    ensures Abandoned(Next(w, e), launch, t)
  {
    match e {
      case Wait(_) =>
      case ReaperTick(turns, crashed) => AbandonedTick(w, turns, crashed, launch, t);
      case Call(op) => AbandonedCall(w, op, launch, t);
    }
  }

  lemma {:induction false} AbandonedAlways(r: Run, i: nat, j: nat, launch: nat)
    requires IsRun(r) && i <= j < |r.worlds|
    requires forall k | i <= k < j :: Untouched(r.worlds[k], r.events[k])
    requires Up(r.worlds[i], launch)
    ensures Abandoned(r.worlds[j], launch, r.worlds[i].now)
  {
    SaneAlways(r, j);
    if i == j {
      AbandonedAtFirst(r.worlds[i], launch);
    } else {
      AbandonedAlways(r, i, j - 1, launch);
      SaneAlways(r, j - 1);
      AbandonedStep(r.worlds[j - 1], r.events[j - 1], launch, r.worlds[i].now);
    }
  }

  lemma AbandonedAtFirst(w: World, launch: nat)
    requires Sane(w) && Up(w, launch)
    ensures Abandoned(w, launch, w.now)
  {
  }

  lemma AbandonedBound(w: World, launch: nat, t: nat)
    requires Sane(w) && Abandoned(w, launch, t) && Up(w, launch)
    ensures w.now <= t + TAB_IDLE_TTL + IDLE_REAP + 2 * REAPER_INTERVAL
  {
  }

  /** A browser whose tabs nobody touches is gone within TAB_IDLE_TTL + IDLE_REAP + 2 * REAPER_INTERVAL. */
  lemma AbandonedBrowserIsReaped(r: Run, i: nat, j: nat, launch: nat)
    requires IsRun(r) && i <= j < |r.worlds|
    requires forall k | i <= k < j :: Untouched(r.worlds[k], r.events[k])
    requires Up(r.worlds[i], launch)
    ensures Up(r.worlds[j], launch) ==>
              r.worlds[j].now <= r.worlds[i].now + TAB_IDLE_TTL + IDLE_REAP + 2 * REAPER_INTERVAL
  {
    SaneAlways(r, j);
    AbandonedAlways(r, i, j, launch);
    if Up(r.worlds[j], launch) {
      AbandonedBound(r.worlds[j], launch, r.worlds[i].now);
    }
  }
}
