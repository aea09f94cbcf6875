/**
 The one shared browser and its tab registry. Times are whole seconds of a monotonic clock;
 what Chromium and the process table answer comes in as parameters.
 */
module Browser {
  import opened Wrappers

  type Chat = string
  type Target = string

  datatype Size = Size(width: nat, height: nat)
  datatype Tab = Tab(target: Target, viewport: Size, lastUsed: nat)
  datatype Entry = Entry(chat: Chat, tab: Tab)

  /** `launch` tells one browser process from the next. */
  datatype Proc = Proc(launch: nat, lastUsed: nat)

  datatype State = State(browser: Option<Proc>, tabs: seq<Entry>, launches: nat)

  /** A page target of the browser, and whether its URL is blank. */
  datatype Page = Page(target: Target, blank: bool)

  const DEFAULT_VIEWPORT := Size(1280, 800)
  const IDLE_REAP := 600
  const TAB_IDLE_TTL := 300
  const REAPER_INTERVAL := 60

  // ---------- the registry as a value ----------

  function IndexOf(tabs: seq<Entry>, chat: Chat): (i: int)
    ensures -1 <= i < |tabs|
    ensures i >= 0 ==> tabs[i].chat == chat
    ensures i == -1 <==> forall k | 0 <= k < |tabs| :: tabs[k].chat != chat
  {
    if tabs == [] then -1
    else if tabs[0].chat == chat then 0
    else
      var i := IndexOf(tabs[1..], chat);
      assert forall k | 1 <= k < |tabs| :: tabs[k] == tabs[1..][k - 1];
      if i == -1 then -1 else i + 1
  }

  function TabOf(tabs: seq<Entry>, chat: Chat): Option<Tab> {
    var i := IndexOf(tabs, chat);
    if i == -1 then None else Some(tabs[i].tab)
  }

  /** `retain`: the entries that pass, in their order. */
  function Kept(tabs: seq<Entry>, keep: Entry -> bool): (r: seq<Entry>)
    ensures forall e :: e in r <==> e in tabs && keep(e)
    ensures |r| <= |tabs|
  {
    if tabs == [] then []
    else if keep(tabs[0]) then [tabs[0]] + Kept(tabs[1..], keep)
    else Kept(tabs[1..], keep)
  }

  function WithoutChat(tabs: seq<Entry>, chat: Chat): seq<Entry> {
    Kept(tabs, (e: Entry) => e.chat != chat)
  }

  function Elapsed(now: nat, since: nat): nat {
    if now >= since then now - since else 0
  }

  function Touched(tabs: seq<Entry>, chat: Chat, now: nat): seq<Entry> {
    var i := IndexOf(tabs, chat);
    if i == -1 then tabs else tabs[i := Entry(chat, tabs[i].tab.(lastUsed := now))]
  }

  predicate MayBeReaped(e: Entry, now: nat, turns: set<Chat>) {
    Elapsed(now, e.tab.lastUsed) >= TAB_IDLE_TTL && e.chat !in turns
  }

  // ---------- the operations on values ----------

  predicate Idle(s: State, now: nat) {
    s.browser.Some? && Elapsed(now, s.browser.value.lastUsed) >= IDLE_REAP
  }

  function Gone(s: State): State {
    s.(browser := None, tabs := [])
  }

  /** `crashed`: the process table reports that the browser process exited. */
  function AskPort(s: State, now: nat, crashed: bool): State {
    if s.browser == None then s
    else if Idle(s, now) || crashed then Gone(s)
    else if s.tabs != [] then s.(browser := Some(s.browser.value.(lastUsed := now)))
    else s
  }

  function RestartClock(s: State, now: nat): State {
    if s.tabs == [] && s.browser.Some? then s.(browser := Some(s.browser.value.(lastUsed := now))) else s
  }

  function ReapedTabs(s: State, now: nat, turns: set<Chat>, crashed: bool): State {
    var kept := Kept(s.tabs, (e: Entry) => !MayBeReaped(e, now, turns));
    if |kept| == |s.tabs| then s
    else RestartClock(AskPort(s.(tabs := kept), now, crashed), now)
  }

  function ReapedIfIdle(s: State, now: nat): State {
    if Idle(s, now) then Gone(s) else s
  }

  /** The first page of that target shows something. */
  predicate IsReal(pages: seq<Page>, target: Target) {
    pages != [] && if pages[0].target == target then !pages[0].blank else IsReal(pages[1..], target)
  }

  /** Nothing when the chat's registered page is real, else the first real page nobody claimed. */
  function Adoptable(tabs: seq<Entry>, chat: Chat, pages: seq<Page>): Option<Target> {
    if TabOf(tabs, chat).Some? && IsReal(pages, TabOf(tabs, chat).value.target) then None
    else FirstUnclaimed(tabs, pages)
  }

  function FirstUnclaimed(tabs: seq<Entry>, pages: seq<Page>): (t: Option<Target>)
    ensures t.Some? ==> forall e | e in tabs :: e.tab.target != t.value
    ensures t.Some? ==> Page(t.value, false) in pages
  {
    if pages == [] then None
    else if !pages[0].blank && forall e | e in tabs :: e.tab.target != pages[0].target then Some(pages[0].target)
    else FirstUnclaimed(tabs, pages[1..])
  }

  /** `status` and `screenshot`: touch the chat's tab, and adopt a page when it shows nothing real. */
  function Adopted(s: State, chat: Chat, now: nat, crashed: bool, pages: seq<Page>): State {
    var registered := TabOf(s.tabs, chat);
    var s := AskPort(s.(tabs := Touched(s.tabs, chat, now)), now, crashed);
    if s.browser == None then s
    else match Adoptable(s.tabs, chat, pages)
      case None => s
      case Some(target) =>
        var viewport := if registered.Some? then registered.value.viewport else DEFAULT_VIEWPORT;
        s.(tabs := WithoutChat(s.tabs, chat) + [Entry(chat, Tab(target, viewport, now))])
  }

  /** What the outside world answers while a tab is being ensured. */
  datatype Answers = Answers(usable: bool, crashed: bool, launches: bool, created: Option<Target>)

  function Ensured(s: State, chat: Chat, now: nat, a: Answers): State {
    var registered := TabOf(s.tabs, chat).Some?;
    var s1 := s.(tabs := Touched(s.tabs, chat, now));
    var s2 := if registered then AskPort(s1, now, a.crashed) else s1;
    if registered && s2.browser.Some? && a.usable then s2 else Reopened(s2, chat, now, a)
  }

  /** A new tab, in a new browser when none is up. */
  function Reopened(s: State, chat: Chat, now: nat, a: Answers): State {
    var s1 := AskPort(s.(tabs := WithoutChat(s.tabs, chat)), now, a.crashed);
    var s2 := if s1.browser == None && a.launches
              then s1.(browser := Some(Proc(s1.launches, now)), launches := s1.launches + 1) else s1;
    if s2.browser.Some? && a.created.Some?
    then s2.(tabs := WithoutChat(s2.tabs, chat) + [Entry(chat, Tab(a.created.value, DEFAULT_VIEWPORT, now))])
    else s2
  }

  function Closed(s: State, chat: Chat, now: nat, crashed: bool): State {
    if TabOf(s.tabs, chat) == None then s
    else AskPort(RestartClock(s.(tabs := WithoutChat(s.tabs, chat)), now), now, crashed)
  }

  function Changed(s: State, chat: Chat, change: Tab -> Tab): State {
    var i := IndexOf(s.tabs, chat);
    if i == -1 then s else s.(tabs := s.tabs[i := Entry(chat, change(s.tabs[i].tab))])
  }

  function Resized(s: State, chat: Chat, size: Size): State {
    Changed(s, chat, (t: Tab) => t.(viewport := size))
  }

  function Pointed(s: State, chat: Chat, target: Target): State {
    Changed(s, chat, (t: Tab) => t.(target := target))
  }

  // ---------- what a poll does, by positions ----------

  ghost predicate OneTabPerChat(tabs: seq<Entry>) {
    forall i, j | 0 <= i < j < |tabs| :: tabs[i].chat != tabs[j].chat
  }

  ghost predicate Drives(tabs: seq<Entry>, chat: Chat, target: Target) {
    exists i :: 0 <= i < |tabs| && tabs[i].chat == chat && tabs[i].tab.target == target
  }

  /** Page `k` is the first of its target, and not blank. */
  ghost predicate ShownAt(pages: seq<Page>, k: nat, target: Target) {
    k < |pages| && pages[k] == Page(target, false) && forall j | 0 <= j < k :: pages[j].target != target
  }

  ghost predicate Shown(pages: seq<Page>, target: Target) {
    exists k: nat :: ShownAt(pages, k, target)
  }

  /** Page `k` is not blank and no chat drives it. */
  ghost predicate Free(tabs: seq<Entry>, pages: seq<Page>, k: nat) {
    k < |pages| && !pages[k].blank && forall i | 0 <= i < |tabs| :: tabs[i].tab.target != pages[k].target
  }

  ghost predicate FirstFree(tabs: seq<Entry>, pages: seq<Page>, k: nat) {
    Free(tabs, pages, k) && forall j: nat | j < k :: !Free(tabs, pages, j)
  }

  /** The chat drives a page that is shown. */
  ghost predicate OnShownPage(tabs: seq<Entry>, chat: Chat, pages: seq<Page>) {
    exists i :: 0 <= i < |tabs| && tabs[i].chat == chat && Shown(pages, tabs[i].tab.target)
  }

  /** Only the clock of the chat's own entry moved. */
  ghost predicate OnlyTouched(tabs: seq<Entry>, after: seq<Entry>, chat: Chat, now: nat) {
    && |after| == |tabs|
    && forall i | 0 <= i < |tabs| ::
         after[i] == if tabs[i].chat == chat
                     then Entry(chat, Tab(tabs[i].tab.target, tabs[i].tab.viewport, now)) else tabs[i]
  }

  /** The chat drives `target` now, in its own viewport; all other entries are as they were. */
  ghost predicate MovedTo(tabs: seq<Entry>, after: seq<Entry>, chat: Chat, target: Target, now: nat) {
    && (forall e: Entry | e.chat != chat :: e in after <==> e in tabs)
    && (forall e | e in after && e.chat == chat :: e.tab.target == target && e.tab.lastUsed == now)
    && Drives(after, chat, target)
    && (forall e, was | e in after && was in tabs && e.chat == was.chat == chat :: e.tab.viewport == was.tab.viewport)
    && ((forall was | was in tabs :: was.chat != chat) ==>
          forall e | e in after && e.chat == chat :: e.tab.viewport == DEFAULT_VIEWPORT)
  }

  /**
   What a poll makes of the registry while the browser is up: a chat on a shown page keeps it, any
   other moves to the first page that shows something and is nobody's, if there is one.
   */
  ghost predicate Follows(tabs: seq<Entry>, after: seq<Entry>, chat: Chat, now: nat, pages: seq<Page>) {
    && (OnShownPage(tabs, chat, pages) ==> OnlyTouched(tabs, after, chat, now))
    && ((forall k: nat :: !Free(tabs, pages, k)) ==> OnlyTouched(tabs, after, chat, now))
    && (!OnShownPage(tabs, chat, pages) ==>
          forall k: nat | FirstFree(tabs, pages, k) :: MovedTo(tabs, after, chat, pages[k].target, now))
  }

  /** The browser is up and not past its time. */
  ghost predicate Alive(s: State, now: nat, crashed: bool) {
    s.browser.Some? && now < s.browser.value.lastUsed + IDLE_REAP && !crashed
  }

  /** The chat has a tab in a live browser, and it answers. */
  ghost predicate Reuses(s: State, chat: Chat, now: nat, a: Answers) {
    (exists i :: 0 <= i < |s.tabs| && s.tabs[i].chat == chat) && Alive(s, now, a.crashed) && a.usable
  }

  /**
   A new tab in the default viewport, in the live browser or in one launched under the next number;
   no tab at all when neither can be had. Other chats lose theirs exactly with a browser that is gone.
   */
  ghost predicate OpensAnew(s: State, after: State, chat: Chat, now: nat, a: Answers) {
    var alive := Alive(s, now, a.crashed);
    && (after.browser.Some? <==> alive || a.launches)
    && (alive ==> after.launches == s.launches && after.browser.value.launch == s.browser.value.launch)
    && (!alive && a.launches ==> after.launches == s.launches + 1 && after.browser == Some(Proc(s.launches, now)))
    && (forall e: Entry | e.chat == chat ::
          e in after.tabs <==>
          after.browser.Some? && a.created.Some? && e.tab == Tab(a.created.value, DEFAULT_VIEWPORT, now))
    && (forall e: Entry | e.chat != chat :: e in after.tabs <==> e in s.tabs && (s.browser == None || alive))
  }

  lemma EnsuredAnew(s: State, chat: Chat, now: nat, a: Answers)
    ensures !Reuses(s, chat, now, a) ==> OpensAnew(s, Ensured(s, chat, now, a), chat, now, a)
  {
    var s1 := s.(tabs := Touched(s.tabs, chat, now));
    var registered := TabOf(s.tabs, chat).Some?;
    assert registered <==> exists i :: 0 <= i < |s.tabs| && s.tabs[i].chat == chat;
    var s2 := if registered then AskPort(s1, now, a.crashed) else s1;
    if !Reuses(s, chat, now, a) {
      ReopenedAnew(s2, chat, now, a);
      OthersTouched(s.tabs, chat, now);
    }
  }

  lemma OthersTouched(tabs: seq<Entry>, chat: Chat, now: nat)
    ensures forall e: Entry | e.chat != chat :: e in Touched(tabs, chat, now) <==> e in tabs
  {
    var i, after := IndexOf(tabs, chat), Touched(tabs, chat, now);
    forall e: Entry | e.chat != chat ensures e in after <==> e in tabs {
      if e in tabs {
        var k :| 0 <= k < |tabs| && tabs[k] == e;
        assert after[k] == e;
      }
    }
  }

  lemma ReopenedAnew(s: State, chat: Chat, now: nat, a: Answers)
    ensures OpensAnew(s, Reopened(s, chat, now, a), chat, now, a)
  {
  }

  lemma {:induction false} RealIsShown(pages: seq<Page>, target: Target)
    ensures IsReal(pages, target) <==> Shown(pages, target)
  {
    if pages != [] {
      RealIsShown(pages[1..], target);
      if pages[0].target == target {
        assert pages[0].blank ==> forall k: nat :: !ShownAt(pages, k, target);
        assert !pages[0].blank ==> ShownAt(pages, 0, target);
      } else {
        assert forall k: nat :: ShownAt(pages[1..], k, target) <==> ShownAt(pages, k + 1, target);
        assert forall k: nat | ShownAt(pages, k, target) :: k > 0 && ShownAt(pages[1..], k - 1, target);
      }
    }
  }

  lemma {:induction false} FirstUnclaimedIsFree(tabs: seq<Entry>, pages: seq<Page>)
    ensures FirstUnclaimed(tabs, pages) == None <==> forall k: nat :: !Free(tabs, pages, k)
    ensures forall k: nat | FirstFree(tabs, pages, k) :: FirstUnclaimed(tabs, pages) == Some(pages[k].target)
    ensures FirstUnclaimed(tabs, pages).Some? ==> exists k: nat :: FirstFree(tabs, pages, k)
  {
    if pages != [] {
      FirstUnclaimedIsFree(tabs, pages[1..]);
      assert Free(tabs, pages, 0) <==> !pages[0].blank && forall e | e in tabs :: e.tab.target != pages[0].target;
      assert forall k: nat :: Free(tabs, pages[1..], k) <==> Free(tabs, pages, k + 1);
      if Free(tabs, pages, 0) {
        assert FirstFree(tabs, pages, 0);
      } else {
        RestIsFree(tabs, pages);
      }
    }
  }

  lemma RestIsFree(tabs: seq<Entry>, pages: seq<Page>)
    requires pages != [] && !Free(tabs, pages, 0)
    ensures forall k: nat :: Free(tabs, pages, k) <==> k > 0 && Free(tabs, pages[1..], k - 1)
    ensures forall k: nat :: FirstFree(tabs, pages[1..], k) ==> FirstFree(tabs, pages, k + 1)
    ensures forall k: nat :: FirstFree(tabs, pages, k) ==> k > 0 && FirstFree(tabs, pages[1..], k - 1)
  {
    forall k: nat ensures Free(tabs, pages, k) <==> k > 0 && Free(tabs, pages[1..], k - 1) {
      assert k > 0 && k < |pages| ==> pages[1..][k - 1] == pages[k];
    }
    assert forall k: nat :: Free(tabs, pages[1..], k) <==> Free(tabs, pages, k + 1);
  }

  lemma PollFollows(s: State, chat: Chat, now: nat, crashed: bool, pages: seq<Page>)
    requires OneTabPerChat(s.tabs) && Adopted(s, chat, now, crashed, pages).browser.Some?
    ensures Follows(s.tabs, Adopted(s, chat, now, crashed, pages).tabs, chat, now, pages)
  {
    var touched := Touched(s.tabs, chat, now);
    assert AskPort(s.(tabs := touched), now, crashed).tabs == touched;
    TouchedOnly(s.tabs, chat, now);
    ChoiceByPosition(s.tabs, touched, chat, now, pages);
    var found := Adoptable(touched, chat, pages);
    if found.Some? {
      var viewport := if TabOf(s.tabs, chat).Some? then TabOf(s.tabs, chat).value.viewport else DEFAULT_VIEWPORT;
      PushedMoves(s.tabs, touched, chat, found.value, viewport, now);
    }
  }

  lemma TouchedOnly(tabs: seq<Entry>, chat: Chat, now: nat)
    requires OneTabPerChat(tabs)
    ensures OnlyTouched(tabs, Touched(tabs, chat, now), chat, now)
  {
  }

  /** The choice of a poll, on the touched registry, said of the one before. */
  lemma ChoiceByPosition(tabs: seq<Entry>, touched: seq<Entry>, chat: Chat, now: nat, pages: seq<Page>)
    requires OneTabPerChat(tabs) && touched == Touched(tabs, chat, now)
    ensures var found := Adoptable(touched, chat, pages);
            && (found == None <==> OnShownPage(tabs, chat, pages) || forall k: nat :: !Free(tabs, pages, k))
            && (found.Some? ==> forall k: nat | FirstFree(tabs, pages, k) :: pages[k].target == found.value)
  {
    TouchedTab(tabs, chat, now);
    TouchedOnly(tabs, chat, now);
    SamePagesAreFree(tabs, touched, pages);
    FirstUnclaimedIsFree(touched, pages);
    ShownIsReal(tabs, chat, pages);
  }

  lemma ShownIsReal(tabs: seq<Entry>, chat: Chat, pages: seq<Page>)
    requires OneTabPerChat(tabs)
    ensures OnShownPage(tabs, chat, pages) <==>
            TabOf(tabs, chat).Some? && IsReal(pages, TabOf(tabs, chat).value.target)
  {
    OwnTab(tabs, chat);
    if TabOf(tabs, chat).Some? {
      RealIsShown(pages, TabOf(tabs, chat).value.target);
    }
  }

  lemma PushedMoves(tabs: seq<Entry>, touched: seq<Entry>, chat: Chat, target: Target, viewport: Size, now: nat)
    requires OneTabPerChat(tabs) && OnlyTouched(tabs, touched, chat, now)
    requires viewport == if TabOf(tabs, chat).Some? then TabOf(tabs, chat).value.viewport else DEFAULT_VIEWPORT
    ensures MovedTo(tabs, WithoutChat(touched, chat) + [Entry(chat, Tab(target, viewport, now))], chat, target, now)
  {
    var kept, own := WithoutChat(touched, chat), Entry(chat, Tab(target, viewport, now));
    var after := kept + [own];
    assert after[|kept|] == own;
    OwnTab(tabs, chat);
    forall e: Entry | e.chat != chat ensures e in after <==> e in tabs {
      SameOthers(tabs, touched, chat, now, e);
    }
  }

  lemma SameOthers(tabs: seq<Entry>, touched: seq<Entry>, chat: Chat, now: nat, e: Entry)
    requires OnlyTouched(tabs, touched, chat, now) && e.chat != chat
    ensures e in touched <==> e in tabs
  {
    if e in tabs {
      var i :| 0 <= i < |tabs| && tabs[i] == e;
      assert touched[i] == e;
    }
  }

  lemma OwnTab(tabs: seq<Entry>, chat: Chat)
    requires OneTabPerChat(tabs)
    ensures forall i | 0 <= i < |tabs| && tabs[i].chat == chat :: TabOf(tabs, chat) == Some(tabs[i].tab)
  {
  }

  lemma SamePagesAreFree(tabs: seq<Entry>, after: seq<Entry>, pages: seq<Page>)
    requires |after| == |tabs| && forall i | 0 <= i < |tabs| :: after[i].tab.target == tabs[i].tab.target
    ensures forall k: nat :: Free(after, pages, k) <==> Free(tabs, pages, k)
    ensures forall k: nat :: FirstFree(after, pages, k) <==> FirstFree(tabs, pages, k)
  {
  }

  // ---------- the session itself ----------

  /** The two statics. Each method is one call of the original, taken as one step. */
  class Session {
    var browser: Option<Proc>
    var tabs: seq<Entry>
    var launches: nat

    function Now(): State
      reads this
    {
      State(browser, tabs, launches)
    }

    constructor ()
      ensures Now() == State(None, [], 0)
    {
      browser, tabs, launches := None, [], 0;
    }

    method AlivePort(now: nat, crashed: bool) returns (up: bool)
      modifies this`browser, this`tabs
      ensures Now() == AskPort(old(Now()), now, crashed) && up == browser.Some?
      ensures up <==> old(browser).Some? && now < old(browser).value.lastUsed + IDLE_REAP && !crashed
      ensures up ==> tabs == old(tabs)
                     && browser.value.launch == old(browser).value.launch
                     && browser.value.lastUsed == if tabs != [] then now else old(browser).value.lastUsed
      ensures !up ==> tabs == if old(browser).Some? then [] else old(tabs)
    {
      if browser.Some? && Elapsed(now, browser.value.lastUsed) >= IDLE_REAP {
        browser, tabs := None, [];
      }
      match browser {
        case None => return false;
        case Some(b) =>
          if crashed {
            browser, tabs := None, [];
            return false;
          }
          if tabs != [] {
            browser := Some(b.(lastUsed := now));
          }
          return true;
      }
    }

    method RestartIdleClockIfUnused(now: nat)
      modifies this`browser
      ensures Now() == RestartClock(old(Now()), now)
    {
      if tabs == [] && browser.Some? {
        browser := Some(browser.value.(lastUsed := now));
      }
    }

    method ReapIfIdle(now: nat)
      modifies this`browser, this`tabs
      ensures Now() == ReapedIfIdle(old(Now()), now)
    {
      if browser.Some? && Elapsed(now, browser.value.lastUsed) >= IDLE_REAP {
        browser, tabs := None, [];
      }
    }

    method Retain(keep: Entry -> bool) returns (dropped: seq<Entry>)
      modifies this`tabs
      ensures tabs == Kept(old(tabs), keep) && |tabs| + |dropped| == |old(tabs)|
      ensures forall e :: e in dropped <==> e in old(tabs) && !keep(e)
    {
      var all := tabs;
      ghost var drop: Entry -> bool := e => !keep(e);
      var kept: seq<Entry> := [];
      dropped := [];
      var i := 0;
      while i < |all|
        invariant 0 <= i <= |all|
        invariant KeptSoFar(all, i, kept, keep) && KeptSoFar(all, i, dropped, drop)
      {
        KeptNext(all, i, kept, keep);
        KeptNext(all, i, dropped, drop);
        if keep(all[i]) {
          kept := kept + [all[i]];
        } else {
          dropped := dropped + [all[i]];
        }
        i := i + 1;
      }
      KeptOrDropped(all, keep, drop);
      tabs := kept;
    }

    /** `turns`: the chats whose agent is running a turn. Returns the targets to close. */
    method ReapIdleTabs(now: nat, turns: set<Chat>, crashed: bool) returns (closing: seq<Entry>)
      modifies this`browser, this`tabs
      ensures Now() == ReapedTabs(old(Now()), now, turns, crashed)
      ensures forall e :: e in closing <==> e in old(tabs) && MayBeReaped(e, now, turns)
    {
      closing := Retain((e: Entry) => !MayBeReaped(e, now, turns));
      if closing == [] {
        WholeKept(old(tabs), (e: Entry) => !MayBeReaped(e, now, turns));
        return;
      }
      var _ := AlivePort(now, crashed);
      RestartIdleClockIfUnused(now);
    }

    method ExistingTab(chat: Chat, now: nat) returns (tab: Option<Tab>)
      modifies this`tabs
      ensures tabs == Touched(old(tabs), chat, now)
      ensures tab == TabOf(tabs, chat)
      ensures OneTabPerChat(old(tabs)) ==> OnlyTouched(old(tabs), tabs, chat, now)
    {
      if OneTabPerChat(tabs) {
        TouchedOnly(tabs, chat, now);
      }
      var i := IndexOf(tabs, chat);
      if i == -1 {
        return None;
      }
      tabs := tabs[i := Entry(chat, tabs[i].tab.(lastUsed := now))];
      TouchedKeepsIndex(old(tabs), i, chat, tabs[i].tab);
      tab := Some(tabs[i].tab);
    }

    /** Replace the chat's entry. */
    method Register(chat: Chat, tab: Tab)
      modifies this`tabs
      ensures tabs == WithoutChat(old(tabs), chat) + [Entry(chat, tab)] && TabOf(tabs, chat) == Some(tab)
    {
      DropTab(chat);
      OnlyTab(tabs, chat, tab);
      tabs := tabs + [Entry(chat, tab)];
    }

    method DropTab(chat: Chat)
      modifies this`tabs
      ensures tabs == WithoutChat(old(tabs), chat) && TabOf(tabs, chat) == None
      ensures forall e | e in tabs :: e.chat != chat
    {
      var _ := Retain((e: Entry) => e.chat != chat);
      NoTab(tabs, chat);
    }

    method Adopt(chat: Chat, now: nat, crashed: bool, pages: seq<Page>) returns (tab: Option<Tab>)
      modifies this`browser, this`tabs
      ensures Now() == Adopted(old(Now()), chat, now, crashed, pages)
      ensures browser.Some? ==> tab == TabOf(tabs, chat)
      ensures browser == None ==> tab == TabOf(Touched(old(tabs), chat, now), chat)
      ensures browser.Some? && OneTabPerChat(old(tabs)) ==> Follows(old(tabs), tabs, chat, now, pages)
    {
      ghost var before := Now();
      if OneTabPerChat(tabs) && Adopted(before, chat, now, crashed, pages).browser.Some? {
        PollFollows(before, chat, now, crashed, pages);
      }
      var registered := ExistingTab(chat, now);
      TouchedTab(old(tabs), chat, now);
      var up := AlivePort(now, crashed);
      if !up {
        return registered;
      }
      if registered.Some? && IsReal(pages, registered.value.target) {
        TouchedTab(old(tabs), chat, now);
        return registered;
      }
      var found := FirstUnclaimed(tabs, pages);
      if found == None {
        return registered;
      }
      var viewport := if registered.Some? then registered.value.viewport else DEFAULT_VIEWPORT;
      var adopted := Tab(found.value, viewport, now);
      Register(chat, adopted);
      return Some(adopted);
    }

    method EnsureTab(chat: Chat, now: nat, a: Answers) returns (tab: Option<Tab>)
      modifies this
      ensures Now() == Ensured(old(Now()), chat, now, a)
      ensures tab == TabOf(tabs, chat)
      ensures OneTabPerChat(old(tabs)) && Reuses(old(Now()), chat, now, a) ==> OnlyTouched(old(tabs), tabs, chat, now)
      ensures !Reuses(old(Now()), chat, now, a) ==> OpensAnew(old(Now()), Now(), chat, now, a)
    {
      if OneTabPerChat(tabs) {
        TouchedOnly(tabs, chat, now);
      }
      EnsuredAnew(Now(), chat, now, a);
      var existing := ExistingTab(chat, now);
      TouchedTab(old(tabs), chat, now);
      if existing.Some? {
        var up := AlivePort(now, a.crashed);
        if up && a.usable {
          return existing;
        }
      }
      tab := Reopen(chat, now, a);
    }

    method Reopen(chat: Chat, now: nat, a: Answers) returns (tab: Option<Tab>)
      modifies this
      ensures Now() == Reopened(old(Now()), chat, now, a)
      ensures tab == TabOf(tabs, chat)
    {
      DropTab(chat);
      var up := AlivePort(now, a.crashed);
      if !up {
        if !a.launches {
          return None;
        }
        browser, launches := Some(Proc(launches, now)), launches + 1;
      }
      if a.created == None {
        return None;
      }
      var newTab := Tab(a.created.value, DEFAULT_VIEWPORT, now);
      Register(chat, newTab);
      return Some(newTab);
    }

    method CloseTab(chat: Chat, now: nat, crashed: bool) returns (closed: bool)
      modifies this`browser, this`tabs
      ensures Now() == Closed(old(Now()), chat, now, crashed)
      ensures closed <==> TabOf(old(tabs), chat).Some?
      ensures closed && browser.Some? ==> forall e :: e in tabs <==> e in old(tabs) && e.chat != chat
    {
      var tab := ExistingTab(chat, now);
      TouchedTab(old(tabs), chat, now);
      if tab == None {
        return false;
      }
      DropTab(chat);
      TouchThenDrop(old(tabs), chat, now);
      RestartIdleClockIfUnused(now);
      var _ := AlivePort(now, crashed);
      return true;
    }

    method StoreViewport(chat: Chat, size: Size)
      modifies this`tabs
      ensures Now() == Resized(old(Now()), chat, size)
      ensures OneTabPerChat(old(tabs)) ==>
                && |tabs| == |old(tabs)|
                && forall i | 0 <= i < |tabs| ::
                     var was := old(tabs)[i];
                     tabs[i] == if was.chat == chat then Entry(chat, Tab(was.tab.target, size, was.tab.lastUsed))
                       else was
    {
      var i := IndexOf(tabs, chat);
      if i != -1 {
        tabs := tabs[i := Entry(chat, tabs[i].tab.(viewport := size))];
      }
    }

    method SetTarget(chat: Chat, target: Target)
      modifies this`tabs
      ensures Now() == Pointed(old(Now()), chat, target)
      ensures OneTabPerChat(old(tabs)) ==>
                && |tabs| == |old(tabs)|
                && forall i | 0 <= i < |tabs| ::
                     var was := old(tabs)[i];
                     tabs[i] == if was.chat == chat then Entry(chat,
                       Tab(target, was.tab.viewport, was.tab.lastUsed)) else was
    {
      var i := IndexOf(tabs, chat);
      if i != -1 {
        tabs := tabs[i := Entry(chat, tabs[i].tab.(target := target))];
      }
    }
  }

  // ---------- facts the methods need ----------

  ghost predicate KeptSoFar(tabs: seq<Entry>, i: nat, kept: seq<Entry>, keep: Entry -> bool)
    requires i <= |tabs|
  {
    Kept(tabs, keep) == kept + Kept(tabs[i..], keep)
  }

  lemma KeptNext(tabs: seq<Entry>, i: nat, kept: seq<Entry>, keep: Entry -> bool)
    requires i < |tabs| && KeptSoFar(tabs, i, kept, keep)
    ensures KeptSoFar(tabs, i + 1, if keep(tabs[i]) then kept + [tabs[i]] else kept, keep)
  {
    assert tabs[i..][1..] == tabs[i + 1..];
  }

  lemma {:induction false} KeptOrDropped(tabs: seq<Entry>, keep: Entry -> bool, drop: Entry -> bool)
    requires forall e :: drop(e) == !keep(e)
    ensures |Kept(tabs, keep)| + |Kept(tabs, drop)| == |tabs|
    ensures forall e :: e in Kept(tabs, drop) <==> e in tabs && !keep(e)
  {
    if tabs != [] {
      KeptOrDropped(tabs[1..], keep, drop);
      assert forall e :: e in tabs <==> e == tabs[0] || e in tabs[1..];
    }
  }

  lemma {:induction false} WholeKept(tabs: seq<Entry>, keep: Entry -> bool)
    ensures |Kept(tabs, keep)| == |tabs| ==> Kept(tabs, keep) == tabs
  {
    if tabs != [] {
      WholeKept(tabs[1..], keep);
    }
  }

  lemma {:induction false} TouchedKeepsIndex(tabs: seq<Entry>, i: nat, chat: Chat, tab: Tab)
    requires i < |tabs| && i == IndexOf(tabs, chat)
    ensures IndexOf(tabs[i := Entry(chat, tab)], chat) == i
  {
    if i > 0 {
      TouchedKeepsIndex(tabs[1..], i - 1, chat, tab);
      assert tabs[i := Entry(chat, tab)][1..] == tabs[1..][i - 1 := Entry(chat, tab)];
    }
  }

  lemma TouchedTab(tabs: seq<Entry>, chat: Chat, now: nat)
    ensures TabOf(Touched(tabs, chat, now), chat) ==
              if TabOf(tabs, chat) == None then None else Some(TabOf(tabs, chat).value.(lastUsed := now))
  {
    var i := IndexOf(tabs, chat);
    if i != -1 {
      TouchedKeepsIndex(tabs, i, chat, tabs[i].tab.(lastUsed := now));
    }
  }

  lemma NoTab(tabs: seq<Entry>, chat: Chat)
    requires forall e | e in tabs :: e.chat != chat
    ensures TabOf(tabs, chat) == None
  {
    assert forall k | 0 <= k < |tabs| :: tabs[k] in tabs;
  }

  lemma OnlyTab(tabs: seq<Entry>, chat: Chat, tab: Tab)
    requires forall e | e in tabs :: e.chat != chat
    ensures TabOf(tabs + [Entry(chat, tab)], chat) == Some(tab)
  {
    var all := tabs + [Entry(chat, tab)];
    assert all[|tabs|].chat == chat;
    assert forall k | 0 <= k < |tabs| :: all[k] == tabs[k] && tabs[k] in tabs;
  }

  lemma {:induction false} TouchThenDrop(tabs: seq<Entry>, chat: Chat, now: nat)
    ensures WithoutChat(Touched(tabs, chat, now), chat) == WithoutChat(tabs, chat)
  {
    if tabs != [] && tabs[0].chat != chat {
      TouchThenDrop(tabs[1..], chat, now);
      assert Touched(tabs, chat, now) == [tabs[0]] + Touched(tabs[1..], chat, now);
    } else if tabs != [] {
      assert Touched(tabs, chat, now)[1..] == tabs[1..];
    }
  }
}
