/** The event-sourced core: every accepted event is applied to the workspace and to the engine of its pane,
    and yields the effects that clients are told about. */
module Core {
  import opened Types
  import opened PaneUpdate
  import opened Tree
  import opened Tiling
  import opened Session

  datatype Event =
    | AddTab(tabId: string, title: string, paneId: string, host: Host)
    | SwitchTab(tabId: string)
    | CloseTab(tabId: string)
    | FocusPane(paneId: string)
    | SplitPane(request: Request)
    | SetPaneResizePolicy(paneId: string, policy: ResizePolicy)
    | PaneOutput(paneId: string, bytes: seq<byte>)
    | CommitPaneResize(paneId: string, cols: u32, rows: u32)
    | RequestSessionShutdown(sessionId: Option<string>)
    | ForwardPaneInput(paneId: string, inputSeq: u64, bytes: seq<byte>)

  datatype Lane = Control | Client | PaneLane | Timer | Lifecycle

  datatype Pending = Pending(sourceId: string, lane: Lane, monoMs: u64, event: Event)

  datatype Accepted = Accepted(eventIndex: u64, monoMs: u64, sourceId: string, lane: Lane, event: Event)

  datatype Effect =
    | WorkspaceChanged(eventIndex: u64, version: u64)
    | PaneSurfaceChanged(eventIndex: u64, paneId: string, surfaceVersion: u64, scrollbackVersion: u64, kind: PatchKind)
    | PaneResized(eventIndex: u64, paneId: string, cols: u32, rows: u32)

  datatype Record = Record(accepted: Accepted, effects: seq<Effect>)

  /** The workspace and the state of every pane's engine. */
  datatype Machine<E> = Machine(workspace: Workspace, engines: map<string, E>)

  datatype Applied<E> = Applied(machine: Machine<E>, effects: seq<Effect>)

  // ---------- one event ----------

  // `engine_mut` creates the engine of a pane on first use, even for a pane that does not exist.
  function EngineOf<E>(k: Engine<E>, engines: map<string, E>, paneId: string): E {
    if paneId in engines then engines[paneId] else k.initial
  }

  function SurfaceEffect(w: Workspace, index: u64, paneId: string): seq<Effect> {
    var p := FindPane(w, paneId);
    if p.None? then []
    else [PaneSurfaceChanged(index, paneId, p.value.surfaceVersion, p.value.scrollbackVersion, p.value.patchKind)]
  }

  function StructureApplied<E>(m: Machine<E>, index: u64, next: Option<Workspace>): Applied<E> {
    if next.None? then Applied(m, [])
    else Applied(m.(workspace := next.value), [WorkspaceChanged(index, next.value.version)])
  }

  function Structural(w: Workspace, e: Event): Option<Workspace> {
    match e
    case AddTab(tabId, title, paneId, host) => TabAdded(w, tabId, title, paneId, host)
    case SwitchTab(tabId) => TabSwitched(w, tabId)
    case CloseTab(tabId) => TabClosed(w, tabId)
    case FocusPane(paneId) => PaneFocused(w, paneId)
    case SplitPane(r) => PaneSplit(w, r)
    case SetPaneResizePolicy(paneId, policy) => PolicySet(w, paneId, policy)
    case PaneOutput(_, _) => None
    case CommitPaneResize(_, _, _) => None
    case RequestSessionShutdown(_) => None
    case ForwardPaneInput(_, _, _) => None
  }

  function Apply<E>(k: Engine<E>, m: Machine<E>, index: u64, e: Event): Applied<E> {
    match e
    case PaneOutput(id, bytes) =>
      var s := OutputApplied(k, EngineOf(k, m.engines, id), m.workspace, id, bytes);
      Applied(Machine(s.workspace, m.engines[id := s.state]),
              if s.changed then SurfaceEffect(s.workspace, index, id) else [])
    case CommitPaneResize(id, cols, rows) =>
      var s := ResizeCommitted(k, EngineOf(k, m.engines, id), m.workspace, id, cols, rows);
      Applied(Machine(s.workspace, m.engines[id := s.state]),
              if s.changed
              then [PaneResized(index, id, cols, rows)] + SurfaceEffect(s.workspace, index, id)
                   + [WorkspaceChanged(index, s.workspace.version)]
              else [])
    case _ => StructureApplied(m, index, Structural(m.workspace, e))
  }

  // ---------- runs ----------

  function Run<E>(k: Engine<E>, m: Machine<E>, events: seq<Event>): Machine<E> {
    if events == [] then m
    else Apply(k, Run(k, m, events[..|events| - 1]), 0, events[|events| - 1]).machine
  }

  lemma IndexIrrelevant<E>(k: Engine<E>, m: Machine<E>, i: u64, j: u64, e: Event)
    ensures Apply(k, m, i, e).machine == Apply(k, m, j, e).machine
  {
  }

  lemma StructuralKeepsGood(w: Workspace, e: Event)
    requires Good(w) && Structural(w, e).Some?
    ensures Good(Structural(w, e).value)
  {
    match e
    case AddTab(tabId, title, paneId, host) => AddKeepsGood(w, tabId, title, paneId, host);
    case SwitchTab(_) =>
    case CloseTab(tabId) => CloseKeepsGood(w, tabId);
    case FocusPane(paneId) => FocusKeepsGood(w, paneId);
    case SplitPane(r) => SplitKeepsGood(w, r);
    case SetPaneResizePolicy(id, policy) => PutKeepsGood(w, id, FindPane(w, id).value.(policy := policy));
    case _ =>
  }

  lemma OutputKeepsGood<E>(k: Engine<E>, e: E, w: Workspace, id: string, bytes: seq<byte>)
    requires Good(w)
    ensures Good(OutputApplied(k, e, w, id, bytes).workspace)
  {
    var p := FindPane(w, id);
    if p.Some? && k.output(e, p.value, bytes).1.Some? {
      PutKeepsGood(w, id, Updated(p.value, k.output(e, p.value, bytes).1.value, false));
    }
  }

  lemma ResizeKeepsGood<E>(k: Engine<E>, e: E, w: Workspace, id: string, cols: u32, rows: u32)
    requires Good(w)
    ensures Good(ResizeCommitted(k, e, w, id, cols, rows).workspace)
  {
    var p := FindPane(w, id);
    if p.Some? && k.resize(e, p.value, cols, rows).1.Some? {
      var u := k.resize(e, p.value, cols, rows).1.value;
      PutKeepsGood(w, id, Updated(p.value.(cols := cols, rows := rows), u, true));
    }
  }

  /** Whatever the engine, every event keeps the workspace well formed. */
  lemma StepKeepsGood<E>(k: Engine<E>, m: Machine<E>, i: u64, e: Event)
    requires Good(m.workspace)
    ensures Good(Apply(k, m, i, e).machine.workspace)
  {
    match e
    case PaneOutput(id, bytes) => OutputKeepsGood(k, EngineOf(k, m.engines, id), m.workspace, id, bytes);
    case CommitPaneResize(id, cols, rows) =>
      ResizeKeepsGood(k, EngineOf(k, m.engines, id), m.workspace, id, cols, rows);
    case _ =>
      if Structural(m.workspace, e).Some? {
        StructuralKeepsGood(m.workspace, e);
      }
  }

  /** `active_pane_id`. */
  function ActivePaneId(w: Workspace): Option<string> {
    var i := TabIndex(w.tabs, w.activeTabId);
    if i.None? || !HasActivePane(w.tabs[i.value]) then None else Some(w.tabs[i.value].activePaneId)
  }

  /** In every run tab ids and leaf ids stay distinct, branches have two children, and there is always an
      active pane. */
  lemma {:induction false} RunKeepsGood<E>(k: Engine<E>, m: Machine<E>, events: seq<Event>)
    requires Good(m.workspace)
    ensures Good(Run(k, m, events).workspace) && ActivePaneId(Run(k, m, events).workspace).Some?
  {
    if events != [] {
      RunKeepsGood(k, m, events[..|events| - 1]);
      StepKeepsGood(k, Run(k, m, events[..|events| - 1]), 0, events[|events| - 1]);
    }
  }

  /** `Session::initial`. */
  function InitialWorkspace(): Workspace {
    var host := Host("local", "sh", None);
    var pane := NewPane("pane-1", host, 80, 24).(surfaceVersion := 2, host := host);
    Workspace("local", 1, "tab-1", [Tab("tab-1", "local", "pane-1", pane)])
  }

  lemma InitialGood()
    ensures Good(InitialWorkspace()) && AllTiled(InitialWorkspace(), 80, 24)
  {
    var w := InitialWorkspace();
    assert w.tabs[0].id == "tab-1";
    assert Roots(w.tabs) == [w.tabs[0].root];
    assert Leaves([w.tabs[0].root]) == [w.tabs[0].root];
    assert LeafIds(Roots(w.tabs)) == ["pane-1"];
  }

  // ---------- tiling over runs ----------

  // Every tab shows a tiling of the same rectangle.
  ghost predicate AllTiled(w: Workspace, cols: u32, rows: u32) {
    forall i | 0 <= i < |w.tabs| :: TiledTo(w.tabs[i].root, cols, rows)
  }

  ghost predicate TiledTo(p: Pane, cols: u32, rows: u32) {
    Tiled(p) && p.cols == cols && p.rows == rows
  }

  // Every tab present before and after kept the size of each of its nodes.
  ghost predicate TabsRefined(v: Workspace, w: Workspace) {
    forall i, j | 0 <= i < |v.tabs| && 0 <= j < |w.tabs| && v.tabs[i].id == w.tabs[j].id ::
      Refines(v.tabs[i].root, w.tabs[j].root)
  }

  lemma PutTiles(w: Workspace, id: string, q: Pane, cols: u32, rows: u32)
    requires AllTiled(w, cols, rows) && FindPane(w, id).Some? && SameFrame(FindPane(w, id).value, q)
    ensures AllTiled(PutPane(w, id, q), cols, rows)
    ensures Distinct(TabIds(w.tabs)) ==> TabsRefined(w, PutPane(w, id, q))
  {
    hide ReplaceFirst, FindIn, Tiled, SameFrame;
    var v := PutPane(w, id, q);
    ReplaceTiles(Roots(w.tabs), id, q);
    assert forall i | 0 <= i < |w.tabs| :: w.tabs[i].root == Roots(w.tabs)[i];
    if Distinct(TabIds(w.tabs)) {
      forall i, j | 0 <= i < |w.tabs| && 0 <= j < |w.tabs| && w.tabs[i].id == v.tabs[j].id
        ensures Refines(w.tabs[i].root, v.tabs[j].root)
      {
        assert TabIds(w.tabs)[i] == TabIds(w.tabs)[j];
      }
    }
  }

  lemma SplitTilesTabs(w: Workspace, r: Request, cols: u32, rows: u32)
    requires AllTiled(w, cols, rows) && PaneSplit(w, r).Some? && Distinct(TabIds(w.tabs))
    ensures AllTiled(PaneSplit(w, r).value, cols, rows) && TabsRefined(w, PaneSplit(w, r).value)
  {
    var v := PaneSplit(w, r).value;
    var i := TabIndex(w.tabs, w.activeTabId).value;
    SplitTiles(w.tabs[i].root, r);
    forall a, b | 0 <= a < |w.tabs| && 0 <= b < |v.tabs| && w.tabs[a].id == v.tabs[b].id
      ensures Refines(w.tabs[a].root, v.tabs[b].root)
    {
      assert TabIds(w.tabs)[a] == TabIds(w.tabs)[b];
      RefinesSelf(w.tabs[a].root);
    }
  }

  // Events that leave every tree as it is, or drop or append whole tabs.
  lemma KeptTabsRefine(w: Workspace, v: Workspace)
    requires Distinct(TabIds(w.tabs))
    requires forall j | 0 <= j < |v.tabs| ::
      (exists i :: 0 <= i < |w.tabs| && w.tabs[i].id == v.tabs[j].id && w.tabs[i].root == v.tabs[j].root)
      || v.tabs[j].id !in TabIds(w.tabs)
    ensures TabsRefined(w, v)
  {
    forall i, j | 0 <= i < |w.tabs| && 0 <= j < |v.tabs| && w.tabs[i].id == v.tabs[j].id
      ensures Refines(w.tabs[i].root, v.tabs[j].root)
    {
      assert TabIds(w.tabs)[i] == v.tabs[j].id;
      var i' :| 0 <= i' < |w.tabs| && w.tabs[i'].id == v.tabs[j].id && w.tabs[i'].root == v.tabs[j].root;
      assert TabIds(w.tabs)[i'] == v.tabs[j].id;
      RefinesSelf(w.tabs[i].root);
    }
  }

  lemma AddTiles(w: Workspace, tabId: string, title: string, paneId: string, host: Host, cols: u32, rows: u32)
    requires AllTiled(w, cols, rows) && Distinct(TabIds(w.tabs)) && TabAdded(w, tabId, title, paneId, host).Some?
    ensures AllTiled(TabAdded(w, tabId, title, paneId, host).value, cols, rows)
    ensures TabsRefined(w, TabAdded(w, tabId, title, paneId, host).value)
  {
    var v := TabAdded(w, tabId, title, paneId, host).value;
    var active := w.tabs[TabIndex(w.tabs, w.activeTabId).value].root;
    assert TiledTo(active, cols, rows);
    LeavesCoverRoot(active);
    assert TiledTo(NewPane(paneId, host, cols, rows), cols, rows);
    assert forall j | 0 <= j < |w.tabs| :: v.tabs[j] == w.tabs[j];
    KeptTabsRefine(w, v);
  }

  lemma CloseTiles(w: Workspace, tabId: string, cols: u32, rows: u32)
    requires AllTiled(w, cols, rows) && Distinct(TabIds(w.tabs)) && TabClosed(w, tabId).Some?
    ensures AllTiled(TabClosed(w, tabId).value, cols, rows) && TabsRefined(w, TabClosed(w, tabId).value)
  {
    var v := TabClosed(w, tabId).value;
    var i := TabIndex(w.tabs, tabId).value;
    forall j | 0 <= j < |v.tabs|
      ensures exists a :: 0 <= a < |w.tabs| && w.tabs[a].id == v.tabs[j].id && w.tabs[a].root == v.tabs[j].root
    {
      assert v.tabs[j] == w.tabs[if j < i then j else j + 1];
    }
    KeptTabsRefine(w, v);
  }

  lemma FocusTiles(w: Workspace, paneId: string, cols: u32, rows: u32)
    requires AllTiled(w, cols, rows) && Distinct(TabIds(w.tabs)) && PaneFocused(w, paneId).Some?
    ensures AllTiled(PaneFocused(w, paneId).value, cols, rows) && TabsRefined(w, PaneFocused(w, paneId).value)
  {
    var v := PaneFocused(w, paneId).value;
    assert forall j | 0 <= j < |v.tabs| :: v.tabs[j].id == w.tabs[j].id && v.tabs[j].root == w.tabs[j].root;
    KeptTabsRefine(w, v);
  }

  lemma StructuralTiles(w: Workspace, e: Event, cols: u32, rows: u32)
    requires AllTiled(w, cols, rows) && Distinct(TabIds(w.tabs)) && Structural(w, e).Some?
    ensures AllTiled(Structural(w, e).value, cols, rows) && TabsRefined(w, Structural(w, e).value)
  {
    match e
    case AddTab(tabId, title, paneId, host) => AddTiles(w, tabId, title, paneId, host, cols, rows);
    case SwitchTab(_) => KeptTabsRefine(w, Structural(w, e).value);
    case CloseTab(tabId) => CloseTiles(w, tabId, cols, rows);
    case FocusPane(paneId) => FocusTiles(w, paneId, cols, rows);
    case SplitPane(r) => SplitTilesTabs(w, r, cols, rows);
    case SetPaneResizePolicy(id, policy) => PutTiles(w, id, FindPane(w, id).value.(policy := policy), cols, rows);
    case _ =>
  }

  /** Any event but a committed resize keeps all tabs tiled to the same rectangle and every node's size. */
  lemma StepTiles<E>(k: Engine<E>, m: Machine<E>, i: u64, e: Event, cols: u32, rows: u32)
    requires AllTiled(m.workspace, cols, rows) && Distinct(TabIds(m.workspace.tabs)) && !e.CommitPaneResize?
    ensures AllTiled(Apply(k, m, i, e).machine.workspace, cols, rows)
    ensures TabsRefined(m.workspace, Apply(k, m, i, e).machine.workspace)
  {
    var w := m.workspace;
    KeptTabsRefine(w, w);
    match e
    case PaneOutput(id, bytes) =>
      var p := FindPane(w, id);
      var s := EngineOf(k, m.engines, id);
      if p.Some? && k.output(s, p.value, bytes).1.Some? {
        PutTiles(w, id, Updated(p.value, k.output(s, p.value, bytes).1.value, false), cols, rows);
      }
    case _ =>
      if Structural(w, e).Some? {
        StructuralTiles(w, e, cols, rows);
      }
  }

  ghost predicate NoResize(events: seq<Event>) {
    forall i | 0 <= i < |events| :: !events[i].CommitPaneResize?
  }

  /** Over any run without committed resizes, the leaves of every tab partition the one common rectangle: each
      has at least one cell, their areas add up to it, and so there are at most `cols * rows` of them. */
  lemma {:induction false} RunTiles<E>(k: Engine<E>, m: Machine<E>, events: seq<Event>, cols: u32, rows: u32)
    requires Good(m.workspace) && AllTiled(m.workspace, cols, rows) && NoResize(events)
    ensures AllTiled(Run(k, m, events).workspace, cols, rows)
    ensures forall i | 0 <= i < |Run(k, m, events).workspace.tabs| ::
      CoversRectangle(LeavesOf(Run(k, m, events).workspace.tabs[i].root), cols, rows)
  {
    var w := Run(k, m, events).workspace;
    if events != [] {
      var before := events[..|events| - 1];
      RunTiles(k, m, before, cols, rows);
      RunKeepsGood(k, m, before);
      StepTiles(k, Run(k, m, before), 0, events[|events| - 1], cols, rows);
    }
    forall i | 0 <= i < |w.tabs| ensures CoversRectangle(LeavesOf(w.tabs[i].root), cols, rows) {
      assert TiledTo(w.tabs[i].root, cols, rows);
      LeavesCoverRoot(w.tabs[i].root);
      forall l | l in LeavesOf(w.tabs[i].root) ensures l.cols >= 1 && l.rows >= 1 {
        LeavesAtLeastOneCell(w.tabs[i].root, l);
      }
    }
  }

  ghost predicate CoversRectangle(leaves: seq<Pane>, cols: u32, rows: u32) {
    && Area(leaves) == cols * rows && 1 <= |leaves| <= cols * rows
    && forall l | l in leaves :: l.cols >= 1 && l.rows >= 1
  }

  lemma HasTab(tabs: seq<Tab>, j: nat)
    requires j < |tabs|
    ensures TabIndex(tabs, tabs[j].id).Some?
  {
  }

  lemma CloseKeepsTab(w: Workspace, closed: string, tabId: string)
    requires closed != tabId && TabIndex(w.tabs, tabId).Some? && TabClosed(w, closed).Some?
    ensures TabIndex(TabClosed(w, closed).value.tabs, tabId).Some?
  {
    var i, j := TabIndex(w.tabs, closed).value, TabIndex(w.tabs, tabId).value;
    HasTab(TabClosed(w, closed).value.tabs, if j < i then j else j - 1);
  }

  lemma PutKeepsTab(w: Workspace, id: string, q: Pane, tabId: string)
    requires TabIndex(w.tabs, tabId).Some?
    ensures TabIndex(PutPane(w, id, q).tabs, tabId).Some?
  {
    HasTab(PutPane(w, id, q).tabs, TabIndex(w.tabs, tabId).value);
  }

  lemma StructuralKeepsTab(w: Workspace, e: Event, tabId: string)
    requires e != CloseTab(tabId) && TabIndex(w.tabs, tabId).Some? && Structural(w, e).Some?
    ensures TabIndex(Structural(w, e).value.tabs, tabId).Some?
  {
    if e.CloseTab? {
      CloseKeepsTab(w, e.tabId, tabId);
    } else if e.SetPaneResizePolicy? {
      PutKeepsTab(w, e.paneId, FindPane(w, e.paneId).value.(policy := e.policy), tabId);
    } else if e.AddTab? || e.SwitchTab? || e.FocusPane? || e.SplitPane? {
      HasTab(Structural(w, e).value.tabs, TabIndex(w.tabs, tabId).value);
    }
  }

  lemma StepKeepsTab<E>(k: Engine<E>, m: Machine<E>, i: u64, e: Event, tabId: string)
    requires e != CloseTab(tabId) && TabIndex(m.workspace.tabs, tabId).Some?
    ensures TabIndex(Apply(k, m, i, e).machine.workspace.tabs, tabId).Some?
  {
    if e.PaneOutput? || e.CommitPaneResize? {
      HasTab(Apply(k, m, i, e).machine.workspace.tabs, TabIndex(m.workspace.tabs, tabId).value);
    } else if Structural(m.workspace, e).Some? {
      StructuralKeepsTab(m.workspace, e, tabId);
    }
  }

  /** As long as a tab is not closed, every node it once had keeps its size through all such runs. */
  lemma {:induction false} RunRefines<E>(
      k: Engine<E>, m: Machine<E>, events: seq<Event>, cols: u32, rows: u32, tabId: string)
    requires Good(m.workspace) && AllTiled(m.workspace, cols, rows) && NoResize(events)
    requires CloseTab(tabId) !in events && TabIndex(m.workspace.tabs, tabId).Some?
    ensures var v, w := m.workspace, Run(k, m, events).workspace;
            && TabIndex(w.tabs, tabId).Some?
            && Refines(v.tabs[TabIndex(v.tabs, tabId).value].root, w.tabs[TabIndex(w.tabs, tabId).value].root)
  {
    var tabs := m.workspace.tabs;
    if events == [] {
      RefinesSelf(tabs[TabIndex(tabs, tabId).value].root);
    } else {
      var before, last := events[..|events| - 1], events[|events| - 1];
      assert last in events && forall e | e in before :: e in events;
      RunRefines(k, m, before, cols, rows, tabId);
      RunTiles(k, m, before, cols, rows);
      RunKeepsGood(k, m, before);
      var mid := Run(k, m, before);
      StepTiles(k, mid, 0, last, cols, rows);
      StepKeepsTab(k, mid, 0, last, tabId);
      var end := Apply(k, mid, 0, last).machine.workspace.tabs;
      RefinesTrans(tabs[TabIndex(tabs, tabId).value].root,
                   mid.workspace.tabs[TabIndex(mid.workspace.tabs, tabId).value].root,
                   end[TabIndex(end, tabId).value].root);
    }
  }

  // ---------- what effects say ----------

  // What an engine report without any effect may still have touched.
  function SurplusCut(p: Pane): Pane {
    p.(screen := Truncate(p.screen, p.rows), paletteDiff := None)
  }

  /** An event without effects changes no version and no content: at most it cuts lines a split left below the
      pane's last row and forgets a palette diff. */
  lemma SilentEventChangesNothing<E>(k: Engine<E>, m: Machine<E>, i: u64, e: Event)
    requires Apply(k, m, i, e).effects == []
    ensures var v := Apply(k, m, i, e).machine.workspace;
            || v == m.workspace
            || (e.PaneOutput? && FindPane(m.workspace, e.paneId).Some?
                && v == PutPane(m.workspace, e.paneId, SurplusCut(FindPane(m.workspace, e.paneId).value)))
  {
    if e.PaneOutput? && FindPane(m.workspace, e.paneId).Some? {
      var p := FindPane(m.workspace, e.paneId).value;
      var s := EngineOf(k, m.engines, e.paneId);
      var u := k.output(s, p, e.bytes).1;
      if u.Some? {
        if UpdateReported(p, u.value, false) {
          FoundAfterPut(m.workspace, e.paneId, Updated(p, u.value, false));
          assert false;
        }
        QuietUpdate(p, u.value);
      }
    }
  }

  lemma QuietUpdate(p: Pane, u: Update)
    requires !UpdateReported(p, u, false)
    ensures Updated(p, u, false) == SurplusCut(p)
  {
  }

  lemma FoundAfterPut(w: Workspace, id: string, q: Pane)
    requires FindPane(w, id).Some? && SamePlace(FindPane(w, id).value, q)
    ensures FindPane(PutPane(w, id, q), id) == Some(q)
  {
    ReplaceKeepsFound(Roots(w.tabs), id, q, id);
    assert Roots(PutPane(w, id, q).tabs) == ReplaceFirst(Roots(w.tabs), id, q);
  }

  ghost predicate EffectCurrent(f: Effect, before: Workspace, after: Workspace) {
    match f
    case WorkspaceChanged(_, version) => version == after.version == SatInc(before.version)
    case PaneResized(_, id, cols, rows) =>
      FindPane(after, id).Some? && FindPane(after, id).value.cols == cols && FindPane(after, id).value.rows == rows
    case PaneSurfaceChanged(_, id, surfaceVersion, scrollbackVersion, kind) =>
      && FindPane(after, id).Some? && FindPane(after, id).value.surfaceVersion == surfaceVersion
      && FindPane(after, id).value.scrollbackVersion == scrollbackVersion
      && FindPane(after, id).value.patchKind == kind
  }

  /** Effects carry the versions, the size and the patch kind that hold from then on. */
  lemma EffectsAreCurrent<E>(k: Engine<E>, m: Machine<E>, i: u64, e: Event, f: Effect)
    requires f in Apply(k, m, i, e).effects
    ensures EffectCurrent(f, m.workspace, Apply(k, m, i, e).machine.workspace)
  {
    if e.CommitPaneResize? && FindPane(m.workspace, e.paneId).Some? {
      var p := FindPane(m.workspace, e.paneId).value;
      var s := EngineOf(k, m.engines, e.paneId);
      var u := k.resize(s, p, e.cols, e.rows).1;
      if u.Some? {
        FoundAfterPut(m.workspace, e.paneId, Updated(p.(cols := e.cols, rows := e.rows), u.value, true));
      }
    }
  }

  /** An event about the structure yields one effect when it works and leaves everything alone when not. */
  lemma StructureEffects<E>(k: Engine<E>, m: Machine<E>, i: u64, e: Event)
    requires !e.PaneOutput? && !e.CommitPaneResize?
    ensures var r := Apply(k, m, i, e); var next := Structural(m.workspace, e);
            && r.machine.engines == m.engines
            && (next.None? ==> r.machine.workspace == m.workspace && r.effects == [])
            && (next.Some? ==> r.machine.workspace == next.value
                               && r.effects == [WorkspaceChanged(i, SatInc(m.workspace.version))])
  {
    if Structural(m.workspace, e).Some? {
      EffectsAreCurrent(k, m, i, e, WorkspaceChanged(i, Structural(m.workspace, e).value.version));
    }
  }

  /** Output is announced, once and with the pane's new versions, exactly when one of the versions moves; only the
      engine of its pane moves on. */
  lemma OutputEffects<E>(k: Engine<E>, m: Machine<E>, i: u64, id: string, bytes: seq<byte>)
    requires FindPane(m.workspace, id).Some?
    requires FindPane(m.workspace, id).value.surfaceVersion < U64_MAX
    requires FindPane(m.workspace, id).value.scrollbackVersion < U64_MAX
    ensures var r := Apply(k, m, i, PaneOutput(id, bytes)); var p := FindPane(m.workspace, id).value;
            var found := FindPane(r.machine.workspace, id);
            && found.Some?
            && r.effects == (if found.value.surfaceVersion == p.surfaceVersion
                                && found.value.scrollbackVersion == p.scrollbackVersion then []
                             else [PaneSurfaceChanged(i, id, found.value.surfaceVersion,
                                                      found.value.scrollbackVersion, found.value.patchKind)])
            && r.machine.workspace.version == m.workspace.version
            && r.machine.engines
               == m.engines[id := k.output(if id in m.engines then m.engines[id] else k.initial, p, bytes).0]
  {
    var p := FindPane(m.workspace, id).value;
    var u := k.output(EngineOf(k, m.engines, id), p, bytes).1;
    if u.Some? {
      FoundAfterPut(m.workspace, id, Updated(p, u.value, false));
    }
  }

  /** A committed resize that the engine answers is announced as the new size, the new surface and the new workspace
      version, in this order; one that changes no size, or that the engine does not answer, not at all. */
  lemma ResizeEffects<E>(k: Engine<E>, m: Machine<E>, i: u64, id: string, cols: u32, rows: u32)
    requires FindPane(m.workspace, id).Some?
    ensures var r := Apply(k, m, i, CommitPaneResize(id, cols, rows)); var p := FindPane(m.workspace, id).value;
            var answer := k.resize(if id in m.engines then m.engines[id] else k.initial, p, cols, rows).1;
            if (p.cols == cols && p.rows == rows) || answer.None?
            then r.effects == [] && r.machine.workspace == m.workspace
            else var found := FindPane(r.machine.workspace, id);
                 && found.Some? && found.value.cols == cols && found.value.rows == rows
                 && r.machine.workspace.version == SatInc(m.workspace.version)
                 && r.effects == [PaneResized(i, id, cols, rows),
                                  PaneSurfaceChanged(i, id, SatInc(p.surfaceVersion), found.value.scrollbackVersion,
                                                     FullRefreshRequired),
                                  WorkspaceChanged(i, SatInc(m.workspace.version))]
  {
    var p := FindPane(m.workspace, id).value;
    var u := k.resize(EngineOf(k, m.engines, id), p, cols, rows).1;
    if !(p.cols == cols && p.rows == rows) && u.Some? {
      FoundAfterPut(m.workspace, id, Updated(p.(cols := cols, rows := rows), u.value, true));
    }
  }

  /** Output and resizes for a pane that does not exist only create its engine. */
  lemma MissingPane<E>(k: Engine<E>, m: Machine<E>, i: u64, e: Event)
    requires (e.PaneOutput? || e.CommitPaneResize?) && FindPane(m.workspace, e.paneId).None?
    ensures var r := Apply(k, m, i, e);
            && r.effects == [] && r.machine.workspace == m.workspace
            && r.machine.engines
               == m.engines[e.paneId := if e.paneId in m.engines then m.engines[e.paneId] else k.initial]
  {
  }

  // ---------- the core object, and replay ----------

  datatype CoreState<E> = CoreState(machine: Machine<E>, nextIndex: u64)

  function Accept<E>(k: Engine<E>, c: CoreState<E>, p: Pending): (CoreState<E>, Record) {
    var a := Accepted(c.nextIndex, p.monoMs, p.sourceId, p.lane, p.event);
    var r := Apply(k, c.machine, a.eventIndex, a.event);
    (CoreState(r.machine, SatInc(c.nextIndex)), Record(a, r.effects))
  }

  function ReplayOne<E>(k: Engine<E>, c: CoreState<E>, a: Accepted): (CoreState<E>, Record) {
    var r := Apply(k, c.machine, a.eventIndex, a.event);
    (CoreState(r.machine, Max(c.nextIndex, SatInc(a.eventIndex))), Record(a, r.effects))
  }

  datatype Outcome<E> = Outcome(core: CoreState<E>, records: seq<Record>)

  function AcceptAll<E>(k: Engine<E>, c: CoreState<E>, ps: seq<Pending>): Outcome<E> {
    if ps == [] then Outcome(c, [])
    else
      var before := AcceptAll(k, c, ps[..|ps| - 1]);
      Continued(before, Accept(k, before.core, ps[|ps| - 1]))
  }

  function Replay<E>(k: Engine<E>, c: CoreState<E>, log: seq<Accepted>): Outcome<E> {
    if log == [] then Outcome(c, [])
    else
      var before := Replay(k, c, log[..|log| - 1]);
      Continued(before, ReplayOne(k, before.core, log[|log| - 1]))
  }

  function Events(ps: seq<Pending>): seq<Event> {
    seq(|ps|, i requires 0 <= i < |ps| => ps[i].event)
  }

  /** Accepting is a run of the machine, so everything proved of runs holds of the core. */
  lemma {:induction false} AcceptAllRuns<E>(k: Engine<E>, c: CoreState<E>, ps: seq<Pending>)
    ensures AcceptAll(k, c, ps).core.machine == Run(k, c.machine, Events(ps))
  {
    if ps != [] {
      AcceptAllRuns(k, c, ps[..|ps| - 1]);
      assert Events(ps)[..|ps| - 1] == Events(ps[..|ps| - 1]);
      IndexIrrelevant(k, Run(k, c.machine, Events(ps[..|ps| - 1])),
                      AcceptAll(k, c, ps[..|ps| - 1]).core.nextIndex, 0, ps[|ps| - 1].event);
    }
  }

  lemma {:induction false} IndexAdvances<E>(k: Engine<E>, c: CoreState<E>, ps: seq<Pending>)
    requires c.nextIndex + |ps| <= U64_MAX
    ensures AcceptAll(k, c, ps).core.nextIndex == c.nextIndex + |ps| && |AcceptAll(k, c, ps).records| == |ps|
  {
    hide Apply;
    if ps != [] {
      IndexAdvances(k, c, ps[..|ps| - 1]);
    }
  }

  /** The records of a run are the events in order, numbered from the core's next index without a gap. */
  lemma {:induction false} RecordsAreNumbered<E>(k: Engine<E>, c: CoreState<E>, ps: seq<Pending>, j: nat)
    requires c.nextIndex + |ps| <= U64_MAX && j < |ps|
    ensures |AcceptAll(k, c, ps).records| == |ps|
    ensures AcceptAll(k, c, ps).records[j].accepted
            == Accepted(c.nextIndex + j, ps[j].monoMs, ps[j].sourceId, ps[j].lane, ps[j].event)
    ensures AcceptAll(k, c, ps).records[j].effects
            == Apply(k, AcceptAll(k, c, ps[..j]).core.machine, (c.nextIndex + j) as u64, ps[j].event).effects
    decreases |ps|
  {
    hide Apply;
    var before := ps[..|ps| - 1];
    IndexAdvances(k, c, ps);
    IndexAdvances(k, c, before);
    if j < |ps| - 1 {
      RecordsAreNumbered(k, c, before, j);
      assert before[..j] == ps[..j];
    } else {
      assert ps[..j] == before;
    }
  }

  function Log(records: seq<Record>): seq<Accepted> {
    seq(|records|, i requires 0 <= i < |records| => records[i].accepted)
  }

  function Fresh<E>(w: Workspace): CoreState<E> {
    CoreState(Machine(w, map[]), 0)
  }

  lemma ReplayMore<E>(k: Engine<E>, c: CoreState<E>, log: seq<Accepted>, a: Accepted)
    ensures Replay(k, c, log + [a]) == Continued(Replay(k, c, log), ReplayOne(k, Replay(k, c, log).core, a))
  {
    assert (log + [a])[..|log|] == log;
  }

  function Continued<E>(o: Outcome<E>, next: (CoreState<E>, Record)): Outcome<E> {
    Outcome(next.0, o.records + [next.1])
  }

  lemma ReplayedAsAccepted<E>(k: Engine<E>, c: CoreState<E>, p: Pending)
    ensures ReplayOne(k, c, Accept(k, c, p).1.accepted) == Accept(k, c, p)
  {
  }

  lemma LogMore(records: seq<Record>, r: Record)
    ensures Log(records + [r]) == Log(records) + [r.accepted]
  {
  }

  /** Replaying the whole log of a core from the same start reproduces its workspace, its engines, the effects
      of every event and the next event index. */
  lemma {:induction false} ReplayReproduces<E>(k: Engine<E>, c: CoreState<E>, ps: seq<Pending>)
    ensures Replay(k, c, Log(AcceptAll(k, c, ps).records)) == AcceptAll(k, c, ps)
    ensures |AcceptAll(k, c, ps).records| == |ps|
  {
    if ps != [] {
      var before := AcceptAll(k, c, ps[..|ps| - 1]);
      var p := ps[|ps| - 1];
      ReplayReproduces(k, c, ps[..|ps| - 1]);
      ReplayedAsAccepted(k, before.core, p);
      LogMore(before.records, Accept(k, before.core, p).1);
      ReplayMore(k, c, Log(before.records), Accept(k, before.core, p).1.accepted);
    }
  }

  class SessionCore<E> {
    const kind: Engine<E>
    const session: SessionState
    var engines: map<string, E>
    var nextEventIndex: u64

    constructor (w: Workspace, kind: Engine<E>)
      ensures State() == Fresh(w) && this.kind == kind && fresh(session)
    {
      this.kind := kind;
      session := new SessionState(w);
      engines := map[];
      nextEventIndex := 0;
    }

    function State(): CoreState<E>
      reads this, session
    {
      CoreState(Machine(session.State(), engines), nextEventIndex)
    }

    method PaneSurfaceEffect(index: u64, paneId: string) returns (effects: seq<Effect>)
      ensures effects == SurfaceEffect(session.State(), index, paneId)
    {
      var p := FindIn(Roots(session.tabs), paneId);
      if p.None? {
        return [];
      }
      return [PaneSurfaceChanged(index, paneId, p.value.surfaceVersion, p.value.scrollbackVersion, p.value.patchKind)];
    }

    method ApplyPaneOutputEvent(index: u64, paneId: string, bytes: seq<byte>) returns (effects: seq<Effect>)
      modifies this`engines, session
      ensures Applied(State().machine, effects) == old(Apply(kind, State().machine, index, PaneOutput(paneId, bytes)))
    {
      var engine := EngineOf(kind, engines, paneId);
      var next, changed := session.ApplyPaneOutput(kind, engine, paneId, bytes);
      engines := engines[paneId := next];
      effects := [];
      if changed {
        effects := PaneSurfaceEffect(index, paneId);
      }
    }

    method ApplyPaneResizeEvent(index: u64, paneId: string, cols: u32, rows: u32) returns (effects: seq<Effect>)
      modifies this`engines, session
      ensures Applied(State().machine, effects)
              == old(Apply(kind, State().machine, index, CommitPaneResize(paneId, cols, rows)))
    {
      var engine := EngineOf(kind, engines, paneId);
      var next, changed := session.CommitPaneResize(kind, engine, paneId, cols, rows);
      engines := engines[paneId := next];
      if !changed {
        return [];
      }
      var surface := PaneSurfaceEffect(index, paneId);
      effects := [PaneResized(index, paneId, cols, rows)] + surface + [WorkspaceChanged(index, session.version)];
    }

    method ApplyStructure(index: u64, event: Event) returns (effects: seq<Effect>)
      requires !event.PaneOutput? && !event.CommitPaneResize?
      modifies session
      ensures Applied(State().machine, effects) == old(Apply(kind, State().machine, index, event))
    {
      var changed := false;
      match event {
        case AddTab(tabId, title, paneId, host) => changed := session.AddTab(tabId, title, paneId, host);
        case SwitchTab(tabId) => changed := session.SwitchTab(tabId);
        case CloseTab(tabId) => changed := session.CloseTab(tabId);
        case FocusPane(paneId) => changed := session.FocusPane(paneId);
        case SplitPane(r) => changed := session.SplitPane(r);
        case SetPaneResizePolicy(paneId, policy) => changed := session.SetPaneResizePolicy(paneId, policy);
        case _ =>
      }
      effects := if changed then [WorkspaceChanged(index, session.version)] else [];
    }

    method ApplyAccepted(a: Accepted) returns (effects: seq<Effect>)
      modifies this`engines, session
      ensures Applied(State().machine, effects) == old(Apply(kind, State().machine, a.eventIndex, a.event))
    {
      match a.event {
        case PaneOutput(paneId, bytes) => effects := ApplyPaneOutputEvent(a.eventIndex, paneId, bytes);
        case CommitPaneResize(paneId, cols, rows) =>
          effects := ApplyPaneResizeEvent(a.eventIndex, paneId, cols, rows);
        case _ => effects := ApplyStructure(a.eventIndex, a.event);
      }
    }

    method AcceptPending(p: Pending) returns (r: Record)
      modifies this, session
      ensures (State(), r) == old(Accept(kind, State(), p))
    {
      var a := Accepted(nextEventIndex, p.monoMs, p.sourceId, p.lane, p.event);
      nextEventIndex := SatInc(nextEventIndex);
      var effects := ApplyAccepted(a);
      r := Record(a, effects);
    }
  }

  method ReplayEvent<E>(core: SessionCore<E>, a: Accepted) returns (r: Record)
    modifies core, core.session
    ensures (core.State(), r) == old(ReplayOne(core.kind, core.State(), a))
  {
    core.nextEventIndex := Max(core.nextEventIndex, SatInc(a.eventIndex));
    var effects := core.ApplyAccepted(a);
    r := Record(a, effects);
  }

  method ReplayAcceptedEvents<E>(w: Workspace, kind: Engine<E>, events: seq<Accepted>)
    returns (core: SessionCore<E>, records: seq<Record>)
    ensures fresh(core) && fresh(core.session) && core.kind == kind
    ensures Outcome(core.State(), records) == Replay(kind, Fresh(w), events)
  {
    core := new SessionCore(w, kind);
    records := [];
    var i := 0;
    while i < |events|
      invariant i <= |events| && fresh(core) && fresh(core.session) && core.kind == kind
      invariant Outcome(core.State(), records) == Replay(kind, Fresh(w), events[..i])
    {
      ReplayMore(kind, Fresh(w), events[..i], events[i]);
      assert events[..i + 1] == events[..i] + [events[i]];
      var r := ReplayEvent(core, events[i]);
      records := records + [r];
      i := i + 1;
    }
    assert events[..i] == events;
  }
}
