/** A tab closed and opened again gives its pane the same name and starts its versions over. The daemon's list of
    announced versions outlives the pane: a list of events after which a mirror stays wrong. */
module ReusedNames {
  import opened Types
  import opened PaneUpdate
  import opened Mirror
  import opened Sync
  import opened Channel
  import opened ClientLink
  import opened Delivery
  import opened Tree
  import opened Session
  import opened Core
  import opened EndToEnd
  import opened LiveSession
  import opened LeafLives

  type Live = System<Interim.AnsiState>

  function EventsOf(steps: seq<Step>): seq<Event> {
    if steps == [] then []
    else (if steps[0].Occurs? then [steps[0].event] else []) + EventsOf(steps[1..])
  }

  // ---------- joining runs ----------

  lemma {:induction false} LiveJoins(x: Live, cap: nat, a: seq<Step>, b: seq<Step>)
    requires IsLive(InterimKind(), x, cap, a) && IsLive(InterimKind(), Later(InterimKind(), x, cap, a), cap, b)
    ensures IsLive(InterimKind(), x, cap, a + b)
    ensures Later(InterimKind(), x, cap, a + b) == Later(InterimKind(), Later(InterimKind(), x, cap, a), cap, b)
    ensures EventsOf(a + b) == EventsOf(a) + EventsOf(b)
    decreases |a|
  {
    hide Possible, Next, InterimKind;
    if a == [] {
      assert a + b == b;
    } else {
      assert (a + b)[1..] == a[1..] + b;
      LiveJoins(Next(InterimKind(), x, cap, a[0]), cap, a[1..], b);
      Regroup(if a[0].Occurs? then [a[0].event] else [], EventsOf(a[1..]), EventsOf(b));
    }
  }

  lemma OneStep(x: Live, cap: nat, step: Step)
    requires Possible(InterimKind(), x, cap, step)
    ensures IsLive(InterimKind(), x, cap, [step])
    ensures Later(InterimKind(), x, cap, [step]) == Next(InterimKind(), x, cap, step)
    ensures EventsOf([step]) == if step.Occurs? then [step.event] else []
  {
    hide Possible, Next, InterimKind;
    assert [step][1..] == [];
  }

  function Talking(run: seq<Action>): seq<Step> {
    seq(|run|, i requires 0 <= i < |run| => Talks(run[i]))
  }

  lemma {:induction false} TalkingIsLive(x: Live, cap: nat, run: seq<Action>)
    requires IsRun(x.state, cap, run) && forall a | a in run :: IsClientAction(a)
    ensures IsLive(InterimKind(), x, cap, Talking(run)) && EventsOf(Talking(run)) == []
    ensures Later(InterimKind(), x, cap, Talking(run)) == x.(state := After(x.state, cap, run))
    decreases |run|
  {
    hide Enabled, Do, PanesSized, InterimKind;
    if run != [] {
      assert run[0] in run && forall a | a in run[1..] :: a in run;
      assert Talking(run)[1..] == Talking(run[1..]);
      TalkingIsLive(x.(state := Do(x.state, cap, run[0])), cap, run[1..]);
    }
  }

  // ---------- events leave the link alone ----------

  lemma {:induction false} PaneActionsKeepLink(s: State, cap: nat, run: seq<Action>)
    requires IsRun(s, cap, run) && forall i | 0 <= i < |run| :: !IsTalk(run[i])
    ensures After(s, cap, run).daemon.announced == s.daemon.announced && After(s, cap, run).link == s.link
    decreases |run|
  {
    hide Enabled, Do, PanesSized;
    if run != [] {
      assert !IsTalk(run[0]);
      PaneActionKeepsAnnounced(s, cap, run[0]);
      forall i | 0 <= i < |run[1..]| ensures !IsTalk(run[1..][i]) {
        assert run[1..][i] == run[i + 1];
      }
      PaneActionsKeepLink(Do(s, cap, run[0]), cap, run[1..]);
    }
  }

  lemma ActionsAreNoTalk(m: Machine<Interim.AnsiState>, e: Event)
    ensures forall i | 0 <= i < |Actions(InterimKind(), m, e)| :: !IsTalk(Actions(InterimKind(), m, e)[i])
  {
    hide TabAdded, TabClosed, PaneSplit, LeavesOf;
  }

  // An event that fits, taken by the whole system.
  lemma EventHappens(x: Live, cap: nat, e: Event)
    requires InterimRight(x) && Fits(x, e)
    ensures var k := InterimKind();
            && Possible(k, x, cap, Occurs(e)) && IsLive(k, x, cap, [Occurs(e)])
            && (var y := Later(k, x, cap, [Occurs(e)]);
                && InterimRight(y) && y.machine == Apply(k, x.machine, 0, e).machine
                && y.state.link == x.state.link && y.state.daemon.announced == x.state.daemon.announced)
  {
    hide Right, Fits, Apply, Actions, IsRun, After, LeavesGood, AllLeaves, InterimKind;
    EventPossible(InterimKind(), x, cap, e);
    OneStep(x, cap, Occurs(e));
    InterimRunKeepsRight(x, cap, [Occurs(e)]);
    ActionsAreNoTalk(x.machine, e);
    PaneActionsKeepLink(x.state, cap, Actions(InterimKind(), x.machine, e));
  }

  // ---------- a tab that prints one character ----------

  function Shown(w: Workspace, e: Event, c: byte): Pane
    requires e.AddTab?
  {
    var p := PaneOfTab(w, e.paneId, e.host);
    Updated(p, InterimEngine.EngineOutput(Interim.Ground, p, [c]).1, false)
  }

  lemma ShownPane(w: Workspace, e: Event, c: byte)
    requires e.AddTab? && 0x20 <= c < 0x7f && PaneOfTab(w, e.paneId, e.host).rows >= 1
    ensures var p := PaneOfTab(w, e.paneId, e.host);
            var q := Shown(w, e, c);
            && InterimEngine.EngineOutput(Interim.Ground, p, [c]).0 == Interim.Ground
            && q.id == e.paneId && q.surfaceVersion == 2 && q.children == [] && |q.screen.lines| <= q.rows
            && Sized(q.screen, |q.screen.lines|) && ViewOf(q).screen.lines[Min(3, p.rows - 1)] == [c as char]
  {
    hide InterimEngine.EngineOutput, ViewOf;
    var p := PaneOfTab(w, e.paneId, e.host);
    PrintedCharacter(p, c);
    VisibleOutput(p, InterimEngine.EngineOutput(Interim.Ground, p, [c]).1, c);
    InterimEngine.NewPaneGood(e.paneId, e.host, p.cols, p.rows);
    OutputMakesAnnounceable(Interim.Ground, p, [c]);
  }

  function Opened(w: Workspace, e: Event, q: Pane): Workspace
    requires e.AddTab?
  {
    Bumped(w).(tabs := w.tabs + [Tab(e.tabId, e.title, e.paneId, q)])
  }

  lemma FreshPaneFits(w: Workspace, e: Event)
    requires e.AddTab? && Structural(w, e).Some?
    ensures Unsaturated(LeafNamed(Structural(w, e).value, e.paneId))
  {
    var p := PaneOfTab(w, e.paneId, e.host);
    PutLast(w, Structural(w, e).value, Tab(e.tabId, e.title, e.paneId, p), e.paneId, p);
  }

  lemma OpenAndPrintLive(x: Live, cap: nat, e: Event, c: byte)
    requires InterimRight(x) && e.AddTab? && Structural(x.machine.workspace, e).Some?
    requires EngineOf(InterimKind(), x.machine.engines, e.paneId) == Interim.Ground
    requires 0x20 <= c < 0x7f && PaneOfTab(x.machine.workspace, e.paneId, e.host).rows >= 1
    ensures var k, steps := InterimKind(), [Occurs(e), Occurs(PaneOutput(e.paneId, [c]))];
            && IsLive(k, x, cap, steps) && EventsOf(steps) == [e, PaneOutput(e.paneId, [c])]
            && (var y := Later(k, x, cap, steps);
                var w := x.machine.workspace;
                && InterimRight(y) && y.state.link == x.state.link
                && y.state.daemon.announced == x.state.daemon.announced
                && y.machine == Machine(Opened(w, e, Shown(w, e, c)), x.machine.engines[e.paneId := Interim.Ground]))
  {
    hide InterimRight, IsLive, Later, Structural, Apply, LeafNamed, InterimEngine.EngineOutput, EventsOf;
    var k, w := InterimKind(), x.machine.workspace;
    var p := PaneOfTab(w, e.paneId, e.host);
    var u := InterimEngine.EngineOutput(Interim.Ground, p, [c]).1;
    var first, second := [Occurs(e)], [Occurs(PaneOutput(e.paneId, [c]))];
    ShownPane(w, e, c);
    EventHappens(x, cap, e);
    AddedMachine(x.machine, e);
    FreshPaneFits(w, e);
    var mid := Later(k, x, cap, first);
    EventHappens(mid, cap, PaneOutput(e.paneId, [c]));
    LiveJoins(x, cap, first, second);
    OneStep(x, cap, first[0]);
    OneStep(mid, cap, second[0]);
    assert first + second == [Occurs(e), Occurs(PaneOutput(e.paneId, [c]))];
    OpenAndPrint(k, x.machine, e, [c], Interim.Ground, u);
  }

  lemma AddedMachine(m: Machine<Interim.AnsiState>, e: Event)
    requires e.AddTab? && Structural(m.workspace, e).Some?
    ensures Apply(InterimKind(), m, 0, e).machine == m.(workspace := Structural(m.workspace, e).value)
  {
  }

  // ---------- announcing and catching up ----------

  lemma EmptyFrameFits(panes: map<string, Signal>, cap: nat, s: Signal)
    requires SetBytes(panes) <= cap && s.paneId !in panes && SignalBytes(Bare(s)) == 0
    ensures SetBytes(NextLatest(panes, cap, s)) <= cap
  {
    var bare := WithoutPatches(panes);
    SignalFits(panes, cap, s);
    PatchesOnlyAdd(panes);
    SetBytesRemove(bare[s.paneId := Bare(s)], s.paneId);
    assert bare[s.paneId := Bare(s)] - {s.paneId} == bare;
  }

  // The first announcement of a leaf that fits, with empty frames, so that no budget is in the way.
  lemma AnnounceFirst(x: Live, cap: nat, q: Pane)
    requires InterimRight(x) && q in AllLeaves(x.machine.workspace) && |q.screen.lines| <= q.rows
    requires q.id !in x.state.daemon.announced && !x.state.link.stopped && SetBytes(x.state.link.published) <= cap
    ensures var a := Announce(q.id, 0, 0);
            && PanesSized(x.state.daemon) && Enabled(x.state, a)
            && Possible(InterimKind(), x, cap, Talks(a)) && q.id in x.state.daemon.panes
            && (var t := Do(x.state, cap, a);
                && Inv(t) && !t.link.stopped && q.id in t.daemon.told && t.daemon.panes == x.state.daemon.panes
                && q.id in t.daemon.announced && t.daemon.announced[q.id] == q.surfaceVersion)
  {
    hide Right, LeavesGood, AllLeaves, Sendable, Meeting, Final, LinkRight, Inv, NextLatest, SetBytes, InLife, Bundle;
    var s, a := x.state, Announce(q.id, 0, 0);
    LeafIsPane(x, q);
    RightParts(x);
    InvSizes(s);
    PlainVersion(q);
    Unheld(s, q.id);
    InterimAnnounceable(x, q);
    BundleNames(s.daemon.panes[q.id], 0, 0);
    PaneIsRight(s, q.id);
    EmptyBundle(s.daemon.panes[q.id]);
    EmptyFrameFits(s.link.latest, cap, Bundle(s.daemon.panes[q.id], 0, 0));
    Delivery.StepKeepsInv(s, cap, a);
  }

  lemma EmptyBundle(p: Pane)
    ensures SignalBytes(Bare(Bundle(p, 0, 0))) == 0
  {
  }

  lemma Unheld(s: State, id: string)
    requires Inv(s) && id !in s.daemon.announced && !s.link.stopped
    ensures Meeting(s.link, id).None? && id !in s.link.latest && s.link.latest == s.link.published
  {
    hide PanesRight, HistoryPast, ToldRight, Delivers, SignalsRight, KnownRight, ReadingRight, PublishedRight;
    UnannouncedIsUnheld(s.link, s.daemon.past, s.daemon.announced, id);
  }

  // Announce a leaf for the first time and let the client catch up.
  lemma AnnounceAndSettle(x: Live, cap: nat, q: Pane) returns (steps: seq<Step>)
    requires InterimRight(x) && q in AllLeaves(x.machine.workspace) && |q.screen.lines| <= q.rows
    requires q.id !in x.state.daemon.announced && !x.state.link.stopped && SetBytes(x.state.link.published) <= cap
    ensures IsLive(InterimKind(), x, cap, steps) && EventsOf(steps) == []
    ensures var y := Later(InterimKind(), x, cap, steps);
            && InterimRight(y) && y.machine == x.machine && CaughtUp(y.state.link)
            && q.id in y.state.daemon.announced && y.state.daemon.announced[q.id] == q.surfaceVersion
            && Sized(q.screen, |q.screen.lines|)
            && q.id in y.state.link.mirrors && y.state.link.mirrors[q.id] == ViewOf(q)
  {
    hide Right, LeavesGood, AllLeaves, IsLive, Later, EventsOf, Possible, Do, Inv, SetBytes, ViewOf, Plain, Final;
    hide IsRun, After;
    var k, a := InterimKind(), Announce(q.id, 0, 0);
    AnnounceFirst(x, cap, q);
    OneStep(x, cap, Talks(a));
    var mid := Later(k, x, cap, [Talks(a)]);
    assert mid == x.(state := Do(x.state, cap, a));
    var run := ClientSettles(mid.state, cap);
    TalkingIsLive(mid, cap, run);
    LiveJoins(x, cap, [Talks(a)], Talking(run));
    steps := [Talks(a)] + Talking(run);
    InterimRunKeepsRight(x, cap, steps);
    var y := Later(k, x, cap, steps);
    LeafIsPane(y, q);
    PlainView(q);
    SettledMirrorsAreCurrent(y.state);
  }

  lemma OtherCharacterOtherView(w: Workspace, e: Event, c: byte, d: byte)
    requires e.AddTab? && 0x20 <= c < 0x7f && 0x20 <= d < 0x7f && c != d && PaneOfTab(w, e.paneId, e.host).rows >= 1
    ensures var q, r := Shown(w, e, c), Shown(w, e, d);
            && q.id == r.id == e.paneId && q.surfaceVersion == r.surfaceVersion == 2
            && Sized(q.screen, |q.screen.lines|) && Sized(r.screen, |r.screen.lines|) && ViewOf(q) != ViewOf(r)
  {
    hide ViewOf, Shown;
    ShownPane(w, e, c);
    ShownPane(w, e, d);
  }

  // Closing the tab opened last leaves the tabs there were.
  lemma ClosedAgain(x: Live, w: Workspace, e: Event, q: Pane)
    requires e.AddTab? && Structural(w, e).Some? && x.machine.workspace == Opened(w, e, q)
    ensures Fits(x, CloseTab(e.tabId))
    ensures Apply(InterimKind(), x.machine, 0, CloseTab(e.tabId)).machine
            == x.machine.(workspace := Bumped(x.machine.workspace).(tabs := w.tabs))
  {
    CloseLast(x.machine.workspace, w.tabs, Tab(e.tabId, e.title, e.paneId, q));
  }

  // A workspace with the same tabs opens the same pane.
  lemma SameOpening(w: Workspace, v: Workspace, e: Event)
    requires e.AddTab? && Structural(w, e).Some? && v.tabs == w.tabs && v.activeTabId == w.activeTabId
    ensures Structural(v, e).Some? && PaneOfTab(v, e.paneId, e.host) == PaneOfTab(w, e.paneId, e.host)
    ensures forall c: byte :: Shown(v, e, c) == Shown(w, e, c)
  {
    hide InterimEngine.EngineOutput;
  }

  // The tab is opened, prints, is announced, and the client catches up.
  lemma OpenAndSettle(x: Live, cap: nat, e: Event, c: byte) returns (steps: seq<Step>)
    requires InterimRight(x) && !x.state.link.stopped && SetBytes(x.state.link.published) <= cap
    requires e.AddTab? && Structural(x.machine.workspace, e).Some?
    requires e.paneId !in x.machine.engines && e.paneId !in x.state.daemon.announced
    requires 0x20 <= c < 0x7f && PaneOfTab(x.machine.workspace, e.paneId, e.host).rows >= 1
    ensures IsLive(InterimKind(), x, cap, steps) && EventsOf(steps) == [e, PaneOutput(e.paneId, [c])]
    ensures var y := Later(InterimKind(), x, cap, steps);
            var q := Shown(x.machine.workspace, e, c);
            && InterimRight(y) && CaughtUp(y.state.link)
            && y.machine == Machine(Opened(x.machine.workspace, e, q), x.machine.engines[e.paneId := Interim.Ground])
            && e.paneId in y.state.daemon.announced && y.state.daemon.announced[e.paneId] == 2
            && Sized(q.screen, |q.screen.lines|)
            && e.paneId in y.state.link.mirrors && y.state.link.mirrors[e.paneId] == ViewOf(q)
  {
    hide InterimRight, IsLive, Later, EventsOf, Structural, SetBytes, ViewOf, AllLeaves, Shown, CaughtUp;
    var k, w := InterimKind(), x.machine.workspace;
    var q := Shown(w, e, c);
    ShownPane(w, e, c);
    OpenAndPrintLive(x, cap, e, c);
    var opening := [Occurs(e), Occurs(PaneOutput(e.paneId, [c]))];
    var mid := Later(k, x, cap, opening);
    LastIsLeaf(mid.machine.workspace, w.tabs, Tab(e.tabId, e.title, e.paneId, q));
    var talk := AnnounceAndSettle(mid, cap, q);
    LiveJoins(x, cap, opening, talk);
    steps := opening + talk;
  }

  // The tab is closed, opened again and prints.
  lemma Reopen(x: Live, cap: nat, w: Workspace, e: Event, q: Pane, d: byte) returns (steps: seq<Step>)
    requires InterimRight(x) && e.AddTab? && Structural(w, e).Some? && x.machine.workspace == Opened(w, e, q)
    requires EngineOf(InterimKind(), x.machine.engines, e.paneId) == Interim.Ground
    requires 0x20 <= d < 0x7f && PaneOfTab(w, e.paneId, e.host).rows >= 1
    ensures IsLive(InterimKind(), x, cap, steps)
    ensures EventsOf(steps) == [CloseTab(e.tabId), e, PaneOutput(e.paneId, [d])]
    ensures var y := Later(InterimKind(), x, cap, steps);
            && y.state.link == x.state.link && y.state.daemon.announced == x.state.daemon.announced
            && Shown(w, e, d) in AllLeaves(y.machine.workspace)
  {
    hide InterimRight, IsLive, Later, EventsOf, Structural, AllLeaves, Shown, Apply, Fits, PaneOfTab;
    var k := InterimKind();
    var close := Occurs(CloseTab(e.tabId));
    ClosedAgain(x, w, e, q);
    EventHappens(x, cap, CloseTab(e.tabId));
    var mid := Later(k, x, cap, [close]);
    SameOpening(w, mid.machine.workspace, e);
    OpenAndPrintLive(mid, cap, e, d);
    var reopening := [Occurs(e), Occurs(PaneOutput(e.paneId, [d]))];
    ShownPane(w, e, d);
    LastIsLeaf(Later(k, mid, cap, reopening).machine.workspace, mid.machine.workspace.tabs,
               Tab(e.tabId, e.title, e.paneId, Shown(w, e, d)));
    OneEvent(x, cap, CloseTab(e.tabId));
    LiveJoins(x, cap, [close], reopening);
    steps := [close] + reopening;
  }

  lemma OneEvent(x: Live, cap: nat, e: Event)
    ensures EventsOf([Occurs(e)]) == [e]
  {
    assert [Occurs(e)][1..] == [];
  }

  // ---------- the list of events ----------

  /** On the interim engine, from any session and for any new pane name: a tab is opened and prints one character,
      the client catches up, the tab is closed, opened again, and prints another character. The daemon takes the
      new pane for announced, the client has nothing left to do, and its mirror shows the old character. */
  lemma ReopenedMirrorStaysWrong(x: Live, cap: nat, e: Event, c: byte, d: byte) returns (steps: seq<Step>)
    requires InterimRight(x) && !x.state.link.stopped && SetBytes(x.state.link.published) <= cap
    requires e.AddTab? && Structural(x.machine.workspace, e).Some?
    requires e.paneId !in x.machine.engines && e.paneId !in x.state.daemon.announced
    requires 0x20 <= c < 0x7f && 0x20 <= d < 0x7f && c != d
    requires PaneOfTab(x.machine.workspace, e.paneId, e.host).rows >= 1
    ensures IsLive(InterimKind(), x, cap, steps) && EventsOf(steps) == Reopening(e, [c], [d])
    ensures var y := Later(InterimKind(), x, cap, steps);
            var r := Shown(x.machine.workspace, e, d);
            && CaughtUp(y.state.link) && r in AllLeaves(y.machine.workspace) && r.id == e.paneId
            && IsAnnounced(r, y.state.daemon.announced)
            && Sized(r.screen, |r.screen.lines|)
            && r.id in y.state.link.mirrors && y.state.link.mirrors[r.id] != ViewOf(r)
  {
    hide InterimRight, IsLive, Later, EventsOf, Structural, SetBytes, ViewOf, AllLeaves, Opened, Shown, PaneOfTab;
    hide CaughtUp, InterimKind;
    var w := x.machine.workspace;
    var q, r := Shown(w, e, c), Shown(w, e, d);
    OtherCharacterOtherView(w, e, c, d);
    var first := OpenAndSettle(x, cap, e, c);
    var mid := Later(InterimKind(), x, cap, first);
    var second := Reopen(mid, cap, w, e, q, d);
    LiveJoins(x, cap, first, second);
    steps := first + second;
    assert [e, PaneOutput(e.paneId, [c])] + [CloseTab(e.tabId), e, PaneOutput(e.paneId, [d])]
           == Reopening(e, [c], [d]);
  }
}
