/** Whole runs: session events and the client's steps in any order. For every engine no event ever gets stuck and
    no mirror is ever wrong, as long as only what can be sent is announced; for the interim engine that is every
    pane whose lines fit its rows. */
module LiveSession {
  import opened Types
  import opened PaneUpdate
  import opened Mirror
  import opened Sync
  import opened Channel
  import opened ClientLink
  import opened Delivery
  import opened Tree
  import opened Session
  import opened Core
  import opened EndToEnd
  import opened Interim
  import opened InterimEngine
  import opened LeafInvariants

  datatype System<E> = System(machine: Machine<E>, state: State)

  datatype Step = Occurs(event: Event) | Talks(action: Action)

  predicate IsTalk(a: Action) {
    a.Announce? || IsClientAction(a)
  }

  ghost predicate Possible<E>(k: Engine<E>, x: System<E>, cap: nat, step: Step) {
    match step
    case Occurs(e) => IsRun(x.state, cap, Actions(k, x.machine, e))
    case Talks(a) => IsTalk(a) && PanesSized(x.state.daemon) && Enabled(x.state, a)
  }

  ghost function Next<E>(k: Engine<E>, x: System<E>, cap: nat, step: Step): System<E>
    requires Possible(k, x, cap, step)
  {
    match step
    case Occurs(e) => System(Apply(k, x.machine, 0, e).machine, After(x.state, cap, Actions(k, x.machine, e)))
    case Talks(a) => x.(state := Do(x.state, cap, a))
  }

  ghost predicate IsLive<E>(k: Engine<E>, x: System<E>, cap: nat, steps: seq<Step>)
    decreases |steps|
  {
    steps != [] ==> Possible(k, x, cap, steps[0]) && IsLive(k, Next(k, x, cap, steps[0]), cap, steps[1..])
  }

  ghost function Later<E>(k: Engine<E>, x: System<E>, cap: nat, steps: seq<Step>): System<E>
    requires IsLive(k, x, cap, steps)
    decreases |steps|
  {
    if steps == [] then x else Later(k, Next(k, x, cap, steps[0]), cap, steps[1..])
  }

  ghost predicate Right<E>(x: System<E>) {
    && Good(x.machine.workspace) && Inv(x.state)
    && Tracks(x.state.daemon.panes, AllLeaves(x.machine.workspace))
  }

  lemma TalkKeepsPanes(s: State, cap: nat, a: Action)
    requires PanesSized(s.daemon) && Enabled(s, a) && IsTalk(a)
    ensures Do(s, cap, a).daemon.panes == s.daemon.panes
  {
    hide Written, Consumed, ReadAll, WithChanged, Sendable, StaleAfter, Updated, SurfaceChanged, Bundle, NextLatest;
  }

  lemma StepKeepsRight<E>(k: Engine<E>, x: System<E>, cap: nat, step: Step)
    requires Right(x) && Possible(k, x, cap, step)
    ensures Right(Next(k, x, cap, step))
  {
    hide Good, Inv, Tracks, Enabled, Do, IsRun, After, Actions, Apply;
    match step
    case Occurs(e) =>
      EventFollows(k, x.machine, 0, e, x.state, cap);
      RunKeepsInv(x.state, cap, Actions(k, x.machine, e));
      StepKeepsGood(k, x.machine, 0, e);
    case Talks(a) =>
      Delivery.StepKeepsInv(x.state, cap, a);
      TalkKeepsPanes(x.state, cap, a);
  }

  lemma {:induction false} LiveKeepsRight<E>(k: Engine<E>, x: System<E>, cap: nat, steps: seq<Step>)
    requires Right(x) && IsLive(k, x, cap, steps)
    ensures Right(Later(k, x, cap, steps))
    decreases |steps|
  {
    hide Right, Possible, Next;
    if steps != [] {
      StepKeepsRight(k, x, cap, steps[0]);
      LiveKeepsRight(k, Next(k, x, cap, steps[0]), cap, steps[1..]);
    }
  }

  lemma PlainView(p: Pane)
    requires Sized(p.screen, |p.screen.lines|)
    ensures ViewOf(Plain(p)) == ViewOf(p) && Plain(p).id == p.id && Plain(p).surfaceVersion == p.surfaceVersion
  {
  }

  // A leaf of the workspace, seen through the daemon's panes.
  lemma LeafIsPane<E>(x: System<E>, l: Pane)
    requires Right(x) && l in AllLeaves(x.machine.workspace)
    ensures l.id in x.state.daemon.panes && x.state.daemon.panes[l.id] == Plain(l)
    ensures Sized(l.screen, |l.screen.lines|)
  {
    hide Good, Plain, AllLeaves;
    InvSizes(x.state);
    PlainKeepsId(l);
  }

  /** For every engine and every run, also when names are used again: each mirror shows a view that a pane of its
      name really had. Whenever the client has caught up, the mirror of every leaf that was announced since it was
      created, at its present version, is exactly that leaf's view. */
  lemma LiveMirrorsAreRight<E>(k: Engine<E>, x: System<E>, cap: nat, steps: seq<Step>)
    requires Right(x) && IsLive(k, x, cap, steps)
    ensures var y := Later(k, x, cap, steps);
            && MirrorsRight(y.state.link.mirrors, y.state.daemon.past)
            && (CaughtUp(y.state.link) ==>
                  forall l | l in AllLeaves(y.machine.workspace) && l.id in y.state.daemon.told
                             && IsAnnounced(l, y.state.daemon.announced) ::
                    && Sized(l.screen, |l.screen.lines|)
                    && l.id in y.state.link.mirrors && y.state.link.mirrors[l.id] == ViewOf(l))
  {
    hide Right, AllLeaves, Plain, ViewOf, Final;
    LiveKeepsRight(k, x, cap, steps);
    var y := Later(k, x, cap, steps);
    RightParts(y);
    if CaughtUp(y.state.link) {
      SettledMirrorsAreCurrent(y.state);
      forall l | l in AllLeaves(y.machine.workspace) && l.id in y.state.daemon.told
                 && IsAnnounced(l, y.state.daemon.announced)
        ensures Sized(l.screen, |l.screen.lines|)
        ensures l.id in y.state.link.mirrors && y.state.link.mirrors[l.id] == ViewOf(l)
      {
        LeafIsPane(y, l);
        PlainView(l);
      }
    }
  }

  lemma RightParts<E>(x: System<E>)
    requires Right(x)
    ensures Inv(x.state) && MirrorsRight(x.state.link.mirrors, x.state.daemon.past)
  {
    hide Good, Tracks, PanesRight, HistoryPast, ToldRight, SignalsRight, KnownRight, ReadingRight, PublishedRight;
  }

  // ---------- every event can be followed ----------

  predicate Unsaturated(p: Option<Pane>) {
    p.Some? ==> p.value.surfaceVersion < U64_MAX
  }

  /** What an event must respect: versions do not saturate. */
  ghost predicate Fits<E>(x: System<E>, e: Event) {
    var w := x.machine.workspace;
    match e
    case PaneOutput(id, _) => Unsaturated(LeafNamed(w, id))
    case CommitPaneResize(id, _, _) => Unsaturated(LeafNamed(w, id))
    case SplitPane(r) => PaneSplit(w, r).Some? ==> Unsaturated(SplitTarget(w, r))
    case _ => true
  }

  // The daemon's pane for the leaf an event names.
  lemma NamedLeaf<E>(x: System<E>, id: string)
    requires Right(x) && LeafNamed(x.machine.workspace, id).Some?
    ensures var p := LeafNamed(x.machine.workspace, id).value;
            && p.id == id && p in AllLeaves(x.machine.workspace)
            && id in x.state.daemon.panes && x.state.daemon.panes[id] == Plain(p)
  {
    hide Plain, Inv, Good;
    var roots := Roots(x.machine.workspace.tabs);
    var p := LeafNamed(x.machine.workspace, id).value;
    FoundHasId(roots, id);
    var i := ReplaceLeaf(roots, id, p);
    assert Leaves(roots)[i] == p;
    LeafIsPane(x, p);
  }

  lemma PlainVersion(p: Pane)
    ensures Plain(p).surfaceVersion == p.surfaceVersion && Plain(p).screen == p.screen
  {
  }

  lemma OutputPossible<E>(k: Engine<E>, x: System<E>, cap: nat, id: string, bytes: seq<byte>)
    requires Right(x) && Unsaturated(LeafNamed(x.machine.workspace, id))
    ensures IsRun(x.state, cap, OutputActions(k, x.machine, id, bytes))
  {
    hide Good, Inv, Tracks, Plain, AllLeaves, IsRun, PanesSized, LeafNamed, SurfaceChanged;
    NoActions(x.state, cap);
    var p := LeafNamed(x.machine.workspace, id);
    if p.Some? {
      var u := k.output(EngineOf(k, x.machine.engines, id), p.value, bytes).1;
      if u.Some? {
        NamedLeaf(x, id);
        PlainVersion(p.value);
        InvSizes(x.state);
        OneAction(x.state, cap, Output(id, u.value));
      }
    }
  }

  lemma ResizePossible<E>(k: Engine<E>, x: System<E>, cap: nat, id: string, cols: u32, rows: u32)
    requires Right(x) && Unsaturated(LeafNamed(x.machine.workspace, id))
    ensures IsRun(x.state, cap, ResizeActions(k, x.machine, id, cols, rows))
  {
    hide Good, Inv, Tracks, Plain, AllLeaves, IsRun, PanesSized, LeafNamed;
    NoActions(x.state, cap);
    var p := LeafNamed(x.machine.workspace, id);
    if p.Some? && !(p.value.cols == cols && p.value.rows == rows) {
      var u := k.resize(EngineOf(k, x.machine.engines, id), p.value, cols, rows).1;
      if u.Some? {
        NamedLeaf(x, id);
        PlainVersion(p.value);
        InvSizes(x.state);
        OneAction(x.state, cap, Resize(id, cols, rows, u.value));
      }
    }
  }

  lemma CreateKeepsSized(s: State, cap: nat, a: Action)
    requires Inv(s) && PanesSized(s.daemon) && Enabled(s, a)
    ensures PanesSized(Do(s, cap, a).daemon)
  {
    hide Inv, PanesSized, Enabled, Do;
    Delivery.StepKeepsInv(s, cap, a);
    InvSizes(Do(s, cap, a));
  }

  lemma AddPossible<E>(x: System<E>, cap: nat, e: Event)
    requires Right(x) && Fits(x, e) && e.AddTab?
    requires TabAdded(x.machine.workspace, e.tabId, e.title, e.paneId, e.host).Some?
    ensures IsRun(x.state, cap, AddActions(x.machine.workspace, e.paneId, e.host))
  {
    hide Inv, NewPane, FindIn, Good, Tracks;
    InvSizes(x.state);
    var w := x.machine.workspace;
    UnknownIsNoLeaf(Roots(w.tabs), e.paneId);
    UnknownIsNoPane(x.state.daemon.panes, AllLeaves(w), e.paneId);
    var root := w.tabs[TabIndex(w.tabs, w.activeTabId).value].root;
    OneAction(x.state, cap, Create(e.paneId, e.host, root.cols, root.rows));
  }

  lemma SplitTargetIsPane<E>(x: System<E>, r: Request)
    requires Right(x) && PaneSplit(x.machine.workspace, r).Some?
    ensures var p := SplitTarget(x.machine.workspace, r);
            && p.Some? && Splittable(p.value, r.axis)
            && r.target in x.state.daemon.panes && x.state.daemon.panes[r.target] == Plain(p.value)
            && r.newId !in x.state.daemon.panes
  {
    hide Plain, SplitOne, Leaves, FindIn, Binary, Inv;
    var w := x.machine.workspace;
    var t := TabIndex(w.tabs, w.activeTabId).value;
    var i := SplitInForest(Roots(w.tabs), t, r);
    LeafFound(AllLeaves(w), i);
    UnknownIsNoLeaf(Roots(w.tabs), r.newId);
    UnknownIsNoPane(x.state.daemon.panes, AllLeaves(w), r.newId);
  }

  lemma SplitPossible<E>(x: System<E>, cap: nat, r: Request)
    requires Right(x) && Fits(x, SplitPane(r)) && PaneSplit(x.machine.workspace, r).Some?
    ensures IsRun(x.state, cap, SplitActions(x.machine.workspace, r))
  {
    hide Good, Inv, Tracks, Plain, Shrunk, NewPane, ViewOf, SplitOne, FindIn;
    var s := x.state;
    SplitTargetIsPane(x, r);
    InvSizes(s);
    var p := SplitTarget(x.machine.workspace, r).value;
    var z := SplitChildSizes(p.cols, p.rows, r.axis).value;
    var shrink, create := Shrink(r.target, z.cols1, z.rows1), Create(r.newId, r.host, z.cols2, z.rows2);
    PlainVersion(p);
    CreateKeepsSized(s, cap, shrink);
    PlainShrunk(p, z.cols1, z.rows1);
    ShrunkSized(Plain(p), z.cols1, z.rows1);
    PaneHasOwnId(s, r.target);
    var mid := Do(s, cap, shrink);
    OneAction(mid, cap, create);
    RunFromStep(s, cap, shrink, [create]);
    assert [shrink] + [create] == SplitActions(x.machine.workspace, r);
  }

  lemma ShrunkSized(p: Pane, cols: u32, rows: u32)
    ensures Shrunk(p, cols, rows).screen == p.screen && Shrunk(p, cols, rows).id == p.id
  {
  }

  lemma PaneHasOwnId(s: State, id: string)
    requires Inv(s) && id in s.daemon.panes
    ensures s.daemon.panes[id].id == id
  {
    PaneNamed(s, id);
  }

  lemma {:induction false} ClosePossible(s: State, cap: nat, ids: seq<string>)
    requires Inv(s) && Distinct(ids) && forall i | 0 <= i < |ids| :: ids[i] in s.daemon.panes
    ensures IsRun(s, cap, Closings(ids))
    decreases |ids|
  {
    hide Inv, PanesSized;
    InvSizes(s);
    if ids != [] {
      assert Closings(ids)[0] == Close(ids[0]);
      assert Closings(ids)[1..] == Closings(ids[1..]);
      Delivery.StepKeepsInv(s, cap, Close(ids[0]));
      assert Distinct(ids[1..]) by {
        forall a, b | 0 <= a < b < |ids[1..]| ensures ids[1..][a] != ids[1..][b] {
          assert ids[a + 1] != ids[b + 1];
        }
      }
      ClosePossible(Do(s, cap, Close(ids[0])), cap, ids[1..]);
    }
  }

  lemma SubIds(a: seq<Pane>, b: seq<Pane>, c: seq<Pane>)
    requires Distinct(Ids(a + b + c))
    ensures Distinct(Ids(b))
  {
    var all := a + b + c;
    forall i, j | 0 <= i < j < |b| ensures Ids(b)[i] != Ids(b)[j] {
      assert Ids(all)[|a| + i] == Ids(b)[i] && Ids(all)[|a| + j] == Ids(b)[j];
    }
  }

  lemma CloseTabPossible<E>(x: System<E>, cap: nat, tabId: string)
    requires Right(x) && TabClosed(x.machine.workspace, tabId).Some?
    ensures var w := x.machine.workspace;
            IsRun(x.state, cap, Closings(Ids(LeavesOf(w.tabs[TabIndex(w.tabs, tabId).value].root))))
  {
    hide Inv, Leaves, LeavesOf, Binary, IsRun;
    var w := x.machine.workspace;
    var i := TabIndex(w.tabs, tabId).value;
    var roots := Roots(w.tabs);
    LeavesAround(roots, i);
    SubIds(Leaves(roots[..i]), LeavesOf(roots[i]), Leaves(roots[i + 1..]));
    ClosePossible(x.state, cap, Ids(LeavesOf(roots[i])));
  }

  /** Whatever the engine, an event that fits can be followed by the clients. */
  lemma EventPossible<E>(k: Engine<E>, x: System<E>, cap: nat, e: Event)
    requires Right(x) && Fits(x, e)
    ensures Possible(k, x, cap, Occurs(e))
  {
    hide Right, IsRun, OutputActions, ResizeActions, AddActions, SplitActions, Closings, LeafNamed;
    hide TabAdded, TabClosed, PaneSplit, Unsaturated;
    NoActions(x.state, cap);
    var w := x.machine.workspace;
    if e.PaneOutput? {
      OutputPossible(k, x, cap, e.paneId, e.bytes);
    } else if e.CommitPaneResize? {
      ResizePossible(k, x, cap, e.paneId, e.cols, e.rows);
    } else if e.AddTab? {
      if TabAdded(w, e.tabId, e.title, e.paneId, e.host).Some? {
        AddPossible(x, cap, e);
      }
    } else if e.CloseTab? {
      if TabClosed(w, e.tabId).Some? {
        CloseTabPossible(x, cap, e.tabId);
      }
    } else if e.SplitPane? {
      if PaneSplit(w, e.request).Some? {
        SplitPossible(x, cap, e.request);
      }
    }
  }

  /** Every event of the run fits, and the client's steps are enabled, as the run goes. */
  ghost predicate FitsAll<E>(k: Engine<E>, x: System<E>, cap: nat, steps: seq<Step>)
    decreases |steps|
  {
    steps != [] ==>
      && (match steps[0]
          case Occurs(e) => Fits(x, e)
          case Talks(a) => IsTalk(a) && PanesSized(x.state.daemon) && Enabled(x.state, a))
      && (Possible(k, x, cap, steps[0]) ==> FitsAll(k, Next(k, x, cap, steps[0]), cap, steps[1..]))
  }

  /** Sessions never get stuck: a run whose events fit, and that announces only what can be sent, is live, so
      `LiveMirrorsAreRight` holds of it. */
  lemma {:induction false} SessionsAreLive<E>(k: Engine<E>, x: System<E>, cap: nat, steps: seq<Step>)
    requires Right(x) && FitsAll(k, x, cap, steps)
    ensures IsLive(k, x, cap, steps)
    decreases |steps|
  {
    hide Right, Fits, Apply, Actions, IsRun, After, Do, Enabled;
    if steps != [] {
      if steps[0].Occurs? {
        EventPossible(k, x, cap, steps[0].event);
      }
      StepKeepsRight(k, x, cap, steps[0]);
      SessionsAreLive(k, Next(k, x, cap, steps[0]), cap, steps[1..]);
    }
  }

  // ---------- the interim engine ----------

  /** The interim engine as a session sees it. */
  function InterimKind(): Engine<AnsiState> {
    Engine(Ground,
           (state, p, bytes) => (EngineOutput(state, p, bytes).0, Some(EngineOutput(state, p, bytes).1)),
           (state, p, cols, rows) => (state, Some(EngineResize(p, rows))))
  }

  ghost predicate LeavesGood(leaves: seq<Pane>) {
    AllSatisfy(p => InterimGood(p), leaves)
  }

  lemma GoodLeaf(leaves: seq<Pane>, p: Pane)
    requires LeavesGood(leaves) && p in leaves
    ensures InterimGood(p)
  {
    hide InterimGood;
  }

  lemma PlainGood(p: Pane)
    requires InterimGood(p)
    ensures InterimGood(Plain(p))
  {
    assert Plain(p).screen == p.screen && Plain(p).scrollback == p.scrollback && Plain(p).cursor == p.cursor;
  }

  lemma PlainEngine(state: AnsiState, p: Pane, bytes: seq<byte>)
    ensures EngineOutput(state, Plain(p), bytes) == EngineOutput(state, p, bytes)
  {
  }

  lemma GoodShowsKnownStyles(q: Pane)
    requires InterimGood(q)
    ensures Sized(q.screen, |q.screen.lines|) && StylesInTable(q, IndicesBelow(|q.screen.lines|))
  {
    GoodStylesInTable(q, IndicesBelow(|q.screen.lines|));
  }

  // ---------- leaves stay good ----------

  lemma SameContentGood(p: Pane, q: Pane)
    requires InterimGood(p)
    requires q.screen == p.screen && q.scrollback == p.scrollback && q.cursor == p.cursor && q.paletteDiff == None
    ensures InterimGood(q)
  {
  }

  lemma TreeKeepsGood()
    ensures KeptByTree(p => InterimGood(p))
  {
    hide InterimGood;
    forall id, host, cols, rows ensures InterimGood(NewPane(id, host, cols, rows)) {
      NewPaneGood(id, host, cols, rows);
    }
    forall p, cols, rows | InterimGood(p) ensures InterimGood(Shrunk(p, cols, rows)) {
      SameContentGood(p, Shrunk(p, cols, rows));
    }
    forall p, policy | InterimGood(p) ensures InterimGood(WithPolicy(p, policy)) {
      NoPendingDiff(p);
      SameContentGood(p, WithPolicy(p, policy));
    }
  }

  lemma NoPendingDiff(p: Pane)
    requires InterimGood(p)
    ensures p.paletteDiff == None
  {
  }

  lemma EngineKeepsGood()
    ensures KeptByEngine(InterimKind(), p => InterimGood(p))
  {
    hide InterimGood, EngineOutput, EngineResize, Updated;
    forall e, p, bytes | InterimGood(p) ensures InterimGood(Updated(p, EngineOutput(e, p, bytes).1, false)) {
      InterimEngine.OutputKeepsGood(e, p, bytes);
    }
    forall p, cols, rows | InterimGood(p)
      ensures InterimGood(Updated(Resized(p, cols, rows), EngineResize(p, rows), true))
    {
      InterimEngine.ResizeKeepsGood(p, cols, rows);
    }
  }

  /** Under the interim engine every leaf's screen stays a piece of its append-only scrollback. */
  lemma EventKeepsLeavesGood(m: Machine<AnsiState>, i: u64, e: Event)
    requires LeavesGood(AllLeaves(m.workspace))
    ensures LeavesGood(AllLeaves(Apply(InterimKind(), m, i, e).machine.workspace))
  {
    hide InterimGood, AllSatisfy, AllLeaves, Apply, KeptByTree, KeptByEngine, InterimKind;
    TreeKeepsGood();
    EngineKeepsGood();
    StepSatisfies(InterimKind(), p => InterimGood(p), m, i, e);
  }

  // ---------- whole interim runs ----------

  lemma InterimNeverStale(state: AnsiState, p: Pane, bytes: seq<byte>)
    requires InterimGood(p)
    ensures StaleAfter(p, EngineOutput(state, p, bytes).1, {}) == {}
  {
    hide EngineOutput, PatchWorks, SurfaceChanged, KindOfChange, StylesInTable, IndicesBelow, Updated;
    InterimOutputPresentable(state, p, bytes);
    NoPendingDiff(p);
  }

  lemma OutputKeepsFresh(x: System<AnsiState>, cap: nat, id: string, bytes: seq<byte>)
    requires Right(x) && LeavesGood(AllLeaves(x.machine.workspace)) && x.state.daemon.stale == {}
    requires IsRun(x.state, cap, OutputActions(InterimKind(), x.machine, id, bytes))
    ensures After(x.state, cap, OutputActions(InterimKind(), x.machine, id, bytes)).daemon.stale == {}
  {
    hide Good, Inv, Tracks, InterimGood, EngineOutput, Plain, AllLeaves, LeavesGood, StaleAfter, Updated, ViewOf;
    hide IsRun, After, LeafNamed;
    NoActions(x.state, cap);
    var p := LeafNamed(x.machine.workspace, id);
    if p.Some? {
      var state := EngineOf(InterimKind(), x.machine.engines, id);
      NamedLeaf(x, id);
      GoodLeaf(AllLeaves(x.machine.workspace), p.value);
      PlainGood(p.value);
      PlainEngine(state, p.value, bytes);
      InterimNeverStale(state, Plain(p.value), bytes);
      SameIsRun(x.state, cap, OutputActions(InterimKind(), x.machine, id, bytes));
    }
  }

  predicate OnlyFreshens(a: Action) {
    !a.Output?
  }

  lemma {:induction false} OthersKeepFresh(s: State, cap: nat, run: seq<Action>)
    requires s.daemon.stale == {} && IsRun(s, cap, run) && forall i | 0 <= i < |run| :: OnlyFreshens(run[i])
    ensures After(s, cap, run).daemon.stale == {}
    decreases |run|
  {
    hide ViewOf, Updated, Shrunk, NewPane, Enabled, PanesSized;
    if run != [] {
      assert OnlyFreshens(run[0]);
      forall i | 0 <= i < |run[1..]| ensures OnlyFreshens(run[1..][i]) {
        assert run[1..][i] == run[i + 1];
      }
      OthersKeepFresh(Do(s, cap, run[0]), cap, run[1..]);
    }
  }

  lemma OtherActions(m: Machine<AnsiState>, e: Event)
    requires !e.PaneOutput?
    ensures forall i | 0 <= i < |Actions(InterimKind(), m, e)| :: OnlyFreshens(Actions(InterimKind(), m, e)[i])
  {
    hide TabAdded, TabClosed, PaneSplit, LeavesOf;
  }

  /** Interim panes are never stale. */
  lemma InterimStepKeepsFresh(x: System<AnsiState>, cap: nat, step: Step)
    requires Right(x) && LeavesGood(AllLeaves(x.machine.workspace)) && x.state.daemon.stale == {}
    requires Possible(InterimKind(), x, cap, step)
    ensures Next(InterimKind(), x, cap, step).state.daemon.stale == {}
  {
    hide Right, LeavesGood, AllLeaves, IsRun, After, OutputActions;
    if step.Occurs? {
      if step.event.PaneOutput? {
        OutputKeepsFresh(x, cap, step.event.paneId, step.event.bytes);
      } else {
        OtherActions(x.machine, step.event);
        OthersKeepFresh(x.state, cap, Actions(InterimKind(), x.machine, step.event));
      }
    }
  }

  ghost predicate InterimRight(x: System<AnsiState>) {
    Right(x) && LeavesGood(AllLeaves(x.machine.workspace)) && x.state.daemon.stale == {}
  }

  /** Over every live run on the interim engine, screens stay pieces of their scrollbacks and no patch is stale. */
  lemma {:induction false} InterimRunKeepsRight(x: System<AnsiState>, cap: nat, steps: seq<Step>)
    requires InterimRight(x) && IsLive(InterimKind(), x, cap, steps)
    ensures InterimRight(Later(InterimKind(), x, cap, steps))
    decreases |steps|
  {
    hide Right, LeavesGood, AllLeaves, Apply, Actions, IsRun, After, Do, Enabled, InterimKind;
    if steps != [] {
      if steps[0].Occurs? {
        EventKeepsLeavesGood(x.machine, 0, steps[0].event);
      }
      InterimStepKeepsFresh(x, cap, steps[0]);
      StepKeepsRight(InterimKind(), x, cap, steps[0]);
      InterimRunKeepsRight(Next(InterimKind(), x, cap, steps[0]), cap, steps[1..]);
    }
  }

  /** So on the interim engine a leaf can be announced exactly when its lines fit its rows, unless the client still
      shows an earlier pane of the name at a version that clashes. */
  lemma InterimAnnounceable(x: System<AnsiState>, l: Pane)
    requires InterimRight(x) && l in AllLeaves(x.machine.workspace) && l.id in x.state.daemon.panes
    requires var next := Meeting(x.state.link, l.id);
             next.Some? && !InLife(next.value, x.state.daemon.history) ==> NoClash(l, next)
    ensures Sendable(x.state.daemon.panes[l.id], Meeting(x.state.link, l.id)) <==> |l.screen.lines| <= l.rows
  {
    hide Right, AllLeaves, LeavesGood, InterimGood, StylesInTable, IndicesBelow, Sendable, Inv, Meeting, PaneRight;
    LeafIsPane(x, l);
    GoodLeaf(AllLeaves(x.machine.workspace), l);
    PlainGood(l);
    GoodShowsKnownStyles(Plain(l));
    var s, next := x.state, Meeting(x.state.link, l.id);
    RightParts(x);
    HeldNamed(s, l.id);
    PaneIsRight(s, l.id);
    if next.Some? && !InLife(next.value, s.daemon.history) {
      OtherSendable(Plain(l), next.value);
    } else {
      OwnSendable(Plain(l), l.id, s.daemon.history, s.daemon.stale, next);
    }
  }

  lemma PaneIsRight(s: State, id: string)
    requires Inv(s) && id in s.daemon.panes
    ensures var p := s.daemon.panes[id];
            && PaneRight(p, id, s.daemon.history, s.daemon.stale) && HistoryRight(s.daemon.history)
            && p.id == id && id != "" && Coherent(p.screen)
  {
    hide LinkRight, ToldRight;
  }

  /** After each output the leaf's lines fit, whatever a split or its creation left behind. */
  lemma OutputMakesAnnounceable(state: AnsiState, p: Pane, bytes: seq<byte>)
    requires InterimGood(p)
    ensures |InterimEngine.PaneOutput(state, p, bytes).1.screen.lines| <= p.rows
  {
    hide InterimGood;
    InterimEngine.OutputKeepsGood(state, p, bytes);
  }

  // ---------- where runs start ----------

  /** A new session with one pane, and a client that has seen nothing. */
  ghost function FreshSystem<E>(): System<E> {
    var p := InitialWorkspace().tabs[0].root;
    InitialPaneGood();
    System(Machine(InitialWorkspace(), map[]),
           State(Daemon(map[p.id := p], map[Moment(p.id, p.surfaceVersion) := ViewOf(p)], {ViewOf(p)}, map[], {}, {}),
                 Link(map[], map[], false, false, map[], map[], [], map[])))
  }

  lemma InitialPaneGood()
    ensures var p := InitialWorkspace().tabs[0].root;
            && InterimGood(p) && Sized(p.screen, |p.screen.lines|) && StylesInTable(p, IndicesBelow(|p.screen.lines|))
  {
    var p := InitialWorkspace().tabs[0].root;
    NewPaneGood("pane-1", Host("local", "sh", None), 80, 24);
    SameContentGood(NewPane("pane-1", Host("local", "sh", None), 80, 24), p);
    GoodShowsKnownStyles(p);
  }

  lemma FreshPaneRight()
    ensures var p := InitialWorkspace().tabs[0].root;
            && Sized(p.screen, |p.screen.lines|)
            && PaneRight(p, p.id, map[Moment(p.id, p.surfaceVersion) := ViewOf(p)], {})
  {
    hide StylesInTable, ViewOf, Coherent, PatchFrame, ApplyPatch;
    InitialPaneGood();
  }

  /** The theorems above apply from the start of every session. */
  lemma FreshIsRight<E>()
    ensures Right(FreshSystem<E>()) && LeavesGood(AllLeaves(FreshSystem<E>().machine.workspace))
    ensures FreshSystem<E>().state.daemon.stale == {} && Own(FreshSystem<E>().state)
  {
    hide PaneRight, InterimGood, StylesInTable, Good, LinkRight;
    var w := InitialWorkspace();
    var p := w.tabs[0].root;
    InitialGood();
    InitialPaneGood();
    FreshPaneRight();
    assert Roots(w.tabs) == [p];
    assert Leaves([p]) == [p];
    assert AllLeaves(w) == [p];
    FreshLink(ViewOf(p));
  }

  lemma FreshLink(v: View)
    requires MirrorValid(v)
    ensures LinkRight(Link(map[], map[], false, false, map[], map[], [], map[]), {v}, map[])
  {
  }

  // ---------- names used once ----------

  /** The event opens no pane under a name that was announced before. */
  predicate NewNamed<E>(x: System<E>, e: Event) {
    match e
    case AddTab(tabId, title, paneId, host) =>
      TabAdded(x.machine.workspace, tabId, title, paneId, host).Some? ==> paneId !in x.state.daemon.announced
    case SplitPane(r) => PaneSplit(x.machine.workspace, r).Some? ==> r.newId !in x.state.daemon.announced
    case _ => true
  }

  // A pane action that opens no announced name.
  predicate OpensNew(a: Action, announced: map<string, u64>) {
    !a.Announce? && !IsClientAction(a) && (a.Create? ==> a.id !in announced)
  }

  lemma PaneActionKeepsAnnounced(s: State, cap: nat, a: Action)
    requires PanesSized(s.daemon) && Enabled(s, a) && !a.Announce? && !IsClientAction(a)
    ensures Do(s, cap, a).daemon.announced == s.daemon.announced && Do(s, cap, a).link == s.link
  {
    hide Updated, ViewOf, Shrunk, NewPane, StaleAfter, Sendable, SurfaceChanged;
  }

  lemma {:induction false} PaneActionsAreNew(s: State, cap: nat, run: seq<Action>)
    requires IsRun(s, cap, run) && forall i | 0 <= i < |run| :: OpensNew(run[i], s.daemon.announced)
    ensures NewNames(s, cap, run)
    ensures After(s, cap, run).daemon.announced == s.daemon.announced && After(s, cap, run).link == s.link
    decreases |run|
  {
    hide Enabled, Do, PanesSized, OpensNew;
    if run != [] {
      assert OpensNew(run[0], s.daemon.announced);
      NewOpens(s.daemon, run[0]);
      PaneActionKeepsAnnounced(s, cap, run[0]);
      forall i | 0 <= i < |run[1..]| ensures OpensNew(run[1..][i], s.daemon.announced) {
        assert run[1..][i] == run[i + 1];
      }
      PaneActionsAreNew(Do(s, cap, run[0]), cap, run[1..]);
    }
  }

  lemma NewOpens(d: Daemon, a: Action)
    requires OpensNew(a, d.announced)
    ensures NewName(d, a) && !a.Announce? && !IsClientAction(a)
  {
  }

  lemma ActionsOpenNew<E>(k: Engine<E>, x: System<E>, e: Event)
    requires NewNamed(x, e)
    ensures forall i | 0 <= i < |Actions(k, x.machine, e)| ::
              OpensNew(Actions(k, x.machine, e)[i], x.state.daemon.announced)
  {
    hide TabAdded, TabClosed, PaneSplit, LeavesOf;
  }

  lemma StepKeepsNames<E>(k: Engine<E>, x: System<E>, cap: nat, step: Step)
    requires Right(x) && Own(x.state) && Possible(k, x, cap, step) && (step.Occurs? ==> NewNamed(x, step.event))
    ensures Own(Next(k, x, cap, step).state)
  {
    hide Inv, Own, Good, Tracks, Enabled, Do, Actions, NewNamed, OpensNew, NewNames, IsRun, After;
    match step
    case Occurs(e) =>
      ActionsOpenNew(k, x, e);
      PaneActionsAreNew(x.state, cap, Actions(k, x.machine, e));
      RunKeepsOwn(x.state, cap, Actions(k, x.machine, e));
    case Talks(a) => StepKeepsOwn(x.state, cap, a);
  }

  ghost predicate NamesOnce<E>(k: Engine<E>, x: System<E>, cap: nat, steps: seq<Step>)
    requires IsLive(k, x, cap, steps)
    decreases |steps|
  {
    steps != [] ==>
      (steps[0].Occurs? ==> NewNamed(x, steps[0].event)) && NamesOnce(k, Next(k, x, cap, steps[0]), cap, steps[1..])
  }

  lemma {:induction false} LiveKeepsNames<E>(k: Engine<E>, x: System<E>, cap: nat, steps: seq<Step>)
    requires Right(x) && Own(x.state) && IsLive(k, x, cap, steps) && NamesOnce(k, x, cap, steps)
    ensures Right(Later(k, x, cap, steps)) && Own(Later(k, x, cap, steps).state)
    decreases |steps|
  {
    hide Right, Own, Possible, Next, NewNamed;
    if steps != [] {
      StepKeepsRight(k, x, cap, steps[0]);
      StepKeepsNames(k, x, cap, steps[0]);
      LiveKeepsNames(k, Next(k, x, cap, steps[0]), cap, steps[1..]);
    }
  }

  /** As long as every opened pane has a new name, a client that has caught up mirrors every leaf announced at its
      present version. */
  lemma NewNamesAreMirrored<E>(k: Engine<E>, x: System<E>, cap: nat, steps: seq<Step>)
    requires Right(x) && Own(x.state) && IsLive(k, x, cap, steps) && NamesOnce(k, x, cap, steps)
    ensures var y := Later(k, x, cap, steps);
            CaughtUp(y.state.link) ==>
              forall l | l in AllLeaves(y.machine.workspace) && IsAnnounced(l, y.state.daemon.announced) ::
                && Sized(l.screen, |l.screen.lines|)
                && l.id in y.state.link.mirrors && y.state.link.mirrors[l.id] == ViewOf(l)
  {
    hide Right, AllLeaves, ViewOf, HoldsOwn, NamesOnce;
    LiveKeepsNames(k, x, cap, steps);
    LiveMirrorsAreRight(k, x, cap, steps);
    var y := Later(k, x, cap, steps);
    forall l | l in AllLeaves(y.machine.workspace) && IsAnnounced(l, y.state.daemon.announced)
      ensures l.id in y.state.daemon.told
    {
      LeafIsPane(y, l);
    }
  }
}
