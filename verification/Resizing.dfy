/** Committed resizes change one node of a pane tree: exactly when they leave the tabs tiled. */
module Resizing {
  import opened Types
  import opened PaneUpdate
  import opened Tree
  import opened Tiling
  import opened Session
  import opened Core

  ghost predicate ForestTiled(ps: seq<Pane>) {
    forall i | 0 <= i < |ps| :: Tiled(ps[i])
  }

  /** Every tab is tiled, each to its own rectangle. */
  ghost predicate TabsTiled(w: Workspace) {
    ForestTiled(Roots(w.tabs))
  }

  // The node that lookup finds is the root of a tree.
  predicate FoundAtRoot(ps: seq<Pane>, id: string) {
    ps != [] && (ps[0].id == id || (FindIn(ps[0].children, id).None? && FoundAtRoot(ps[1..], id)))
  }

  /** The same node with another size. */
  predicate OtherSize(p: Pane, q: Pane) {
    SamePlace(p, q) && p.axis == q.axis && (p.cols != q.cols || p.rows != q.rows)
  }

  lemma HeadAndTail(ps: seq<Pane>)
    requires ps != []
    ensures ForestTiled(ps) <==> Tiled(ps[0]) && ForestTiled(ps[1..])
  {
    if Tiled(ps[0]) && ForestTiled(ps[1..]) {
      forall i | 0 <= i < |ps| ensures Tiled(ps[i]) {
        assert i > 0 ==> ps[i] == ps[1..][i - 1];
      }
    }
  }

  // A child with another size does not fit its branch.
  lemma ChildBreaksBranch(p: Pane, children: seq<Pane>, id: string, q: Pane)
    requires Tiled(p) && p.children != [] && children == ReplaceFirst(p.children, id, q)
    requires FindIn(p.children, id).Some? && FoundAtRoot(p.children, id) && OtherSize(FindIn(p.children, id).value, q)
    ensures !Tiled(p.(children := children))
  {
    var first, second := p.children[0], p.children[1];
    assert p.children == [first, second] && p.children[1..] == [second] && [second][1..] == [];
    if first.id == id {
      assert children == [q, second];
      assert !Partition(p.axis, p, q, second);
    } else {
      assert FindIn(p.children, id) == FindIn([second], id) == Some(second);
      assert children == [first, q] by {
        assert ReplaceFirst([second], id, q) == [q];
      }
      assert !Partition(p.axis, p, first, q);
    }
  }

  lemma {:induction false} OtherSizeTiles(ps: seq<Pane>, id: string, q: Pane)
    requires ForestTiled(ps) && FindIn(ps, id).Some? && OtherSize(FindIn(ps, id).value, q)
    ensures ForestTiled(ReplaceFirst(ps, id, q))
            <==> FoundAtRoot(ps, id) && q.children == [] && q.cols >= 1 && q.rows >= 1
    decreases ps
  {
    var qs := ReplaceFirst(ps, id, q);
    HeadAndTail(ps);
    HeadAndTail(qs);
    if ps[0].id == id {
      assert qs[1..] == ps[1..];
    } else if FindIn(ps[0].children, id).Some? {
      var children := ReplaceFirst(ps[0].children, id, q);
      OtherSizeTiles(ps[0].children, id, q);
      if FoundAtRoot(ps[0].children, id) {
        ChildBreaksBranch(ps[0], children, id, q);
      } else {
        UntiledChildren(ps[0].(children := children));
      }
    } else {
      OtherSizeTiles(ps[1..], id, q);
      assert qs[1..] == ReplaceFirst(ps[1..], id, q);
    }
  }

  lemma UntiledChildren(p: Pane)
    requires !ForestTiled(p.children)
    ensures !Tiled(p)
  {
  }

  /** The resize takes effect: the pane is found with another size, and the engine answers. */
  predicate Takes<E>(k: Engine<E>, e: E, w: Workspace, id: string, cols: u32, rows: u32) {
    ResizeCommitted(k, e, w, id, cols, rows).changed
  }

  /** The pane is a whole tab, and is given at least one cell. */
  predicate FillsTab(w: Workspace, id: string, cols: u32, rows: u32) {
    && FoundAtRoot(Roots(w.tabs), id) && FindPane(w, id).Some? && FindPane(w, id).value.children == []
    && cols >= 1 && rows >= 1
  }

  /** A committed resize leaves all tabs tiled if and only if nothing is resized or the pane is a whole tab. */
  lemma ResizeTiles<E>(k: Engine<E>, e: E, w: Workspace, id: string, cols: u32, rows: u32)
    requires TabsTiled(w)
    ensures TabsTiled(ResizeCommitted(k, e, w, id, cols, rows).workspace)
            <==> !Takes(k, e, w, id, cols, rows) || FillsTab(w, id, cols, rows)
  {
    if Takes(k, e, w, id, cols, rows) {
      var p := FindPane(w, id).value;
      var u := k.resize(e, p, cols, rows).1.value;
      var q := Updated(p.(cols := cols, rows := rows), u, true);
      OtherSizeTiles(Roots(w.tabs), id, q);
      assert Roots(PutPane(w, id, q).tabs) == ReplaceFirst(Roots(w.tabs), id, q);
    }
  }

  // ---------- runs ----------

  /** The event resizes a part of a tab. */
  predicate Breaks<E>(k: Engine<E>, m: Machine<E>, e: Event) {
    && e.CommitPaneResize?
    && Takes(k, EngineOf(k, m.engines, e.paneId), m.workspace, e.paneId, e.cols, e.rows)
    && !FillsTab(m.workspace, e.paneId, e.cols, e.rows)
  }

  lemma SameFramePutTiles(w: Workspace, id: string, q: Pane)
    requires TabsTiled(w) && FindPane(w, id).Some? && SameFrame(FindPane(w, id).value, q)
    ensures TabsTiled(PutPane(w, id, q))
  {
    hide ReplaceFirst, FindIn, Tiled, SameFrame;
    ReplaceTiles(Roots(w.tabs), id, q);
    assert Roots(PutPane(w, id, q).tabs) == ReplaceFirst(Roots(w.tabs), id, q);
  }

  lemma StructuralTilesTabs(w: Workspace, e: Event)
    requires TabsTiled(w) && Structural(w, e).Some?
    ensures TabsTiled(Structural(w, e).value)
  {
    hide Tiled, FindIn, SplitOne, NewPane, SameFrame;
    var v := Structural(w, e).value;
    var roots := Roots(w.tabs);
    if e.AddTab? {
      AddTilesTabs(w, e);
    } else if e.CloseTab? {
      var i := TabIndex(w.tabs, e.tabId).value;
      assert forall j | 0 <= j < |v.tabs| :: Roots(v.tabs)[j] == roots[if j < i then j else j + 1];
    } else if e.SplitPane? {
      var i := TabIndex(w.tabs, w.activeTabId).value;
      assert Tiled(roots[i]);
      SplitTiles(roots[i], e.request);
      assert Roots(v.tabs) == roots[i := SplitOne(roots[i], e.request).value];
    } else if e.SetPaneResizePolicy? {
      var p := FindPane(w, e.paneId).value;
      PolicyFrame(p, e.policy);
      SameFramePutTiles(w, e.paneId, p.(policy := e.policy));
    } else {
      assert Roots(v.tabs) == roots;
    }
  }

  lemma AddTilesTabs(w: Workspace, e: Event)
    requires TabsTiled(w) && e.AddTab? && Structural(w, e).Some?
    ensures TabsTiled(Structural(w, e).value)
  {
    hide Tiled, FindIn, NewPane;
    var roots := Roots(w.tabs);
    var i := TabIndex(w.tabs, w.activeTabId).value;
    assert Tiled(roots[i]);
    LeavesCoverRoot(roots[i]);
    var pane := NewPane(e.paneId, e.host, roots[i].cols, roots[i].rows);
    NewPaneTiled(e.paneId, e.host, roots[i].cols, roots[i].rows);
    assert Roots(Structural(w, e).value.tabs) == roots + [pane];
  }

  lemma PolicyFrame(p: Pane, policy: ResizePolicy)
    ensures SameFrame(p, p.(policy := policy))
  {
  }

  lemma NewPaneTiled(id: string, host: Host, cols: u32, rows: u32)
    requires cols >= 1 && rows >= 1
    ensures Tiled(NewPane(id, host, cols, rows))
  {
  }

  /** An event leaves tiled tabs tiled if and only if it does not resize a part of a tab. */
  lemma StepTilesExactly<E>(k: Engine<E>, m: Machine<E>, i: u64, e: Event)
    requires TabsTiled(m.workspace)
    ensures TabsTiled(Apply(k, m, i, e).machine.workspace) <==> !Breaks(k, m, e)
  {
    hide Tiled, FindIn, Structural, TabsTiled, FillsTab;
    var w := m.workspace;
    if e.CommitPaneResize? {
      ResizeTiles(k, EngineOf(k, m.engines, e.paneId), w, e.paneId, e.cols, e.rows);
    } else if e.PaneOutput? {
      var p, s := FindPane(w, e.paneId), EngineOf(k, m.engines, e.paneId);
      if p.Some? && k.output(s, p.value, e.bytes).1.Some? {
        SameFramePutTiles(w, e.paneId, Updated(p.value, k.output(s, p.value, e.bytes).1.value, false));
      }
    } else if Structural(w, e).Some? {
      StructuralTilesTabs(w, e);
    }
  }

  /** All tabs are tiled at every moment of the run. */
  ghost predicate TiledThroughout<E>(k: Engine<E>, m: Machine<E>, events: seq<Event>) {
    forall n | 0 <= n <= |events| :: TabsTiled(Run(k, m, events[..n]).workspace)
  }

  /** No event of the run resizes a part of a tab. */
  ghost predicate NoBreak<E>(k: Engine<E>, m: Machine<E>, events: seq<Event>) {
    forall n | 0 <= n < |events| :: !Breaks(k, Run(k, m, events[..n]), events[n])
  }

  lemma OneMoreEvent<E>(k: Engine<E>, m: Machine<E>, events: seq<Event>)
    requires events != []
    ensures var before := events[..|events| - 1];
            && (TiledThroughout(k, m, events)
                <==> TiledThroughout(k, m, before) && TabsTiled(Run(k, m, events).workspace))
            && (NoBreak(k, m, events)
                <==> NoBreak(k, m, before) && !Breaks(k, Run(k, m, before), events[|events| - 1]))
  {
    hide TabsTiled, Breaks, Run;
    var before := events[..|events| - 1];
    assert events[..|events|] == events;
    assert forall n | 0 <= n <= |before| :: events[..n] == before[..n];
    assert forall n | 0 <= n < |before| :: events[n] == before[n];
  }

  /** Over a run all tabs are tiled at every moment if and only if no event of it resizes a part of a tab. */
  lemma {:induction false} RunTilesExactly<E>(k: Engine<E>, m: Machine<E>, events: seq<Event>)
    requires TabsTiled(m.workspace)
    ensures TiledThroughout(k, m, events) <==> NoBreak(k, m, events)
  {
    hide TabsTiled, Breaks, Apply, NoBreak, TiledThroughout;
    if events == [] {
      EmptyRun(k, m);
    } else {
      var before, last := events[..|events| - 1], events[|events| - 1];
      RunTilesExactly(k, m, before);
      OneMoreEvent(k, m, events);
      if TiledThroughout(k, m, before) {
        EndsTiled(k, m, before);
        StepTilesExactly(k, Run(k, m, before), 0, last);
      }
    }
  }

  lemma EmptyRun<E>(k: Engine<E>, m: Machine<E>)
    ensures NoBreak(k, m, []) && (TiledThroughout(k, m, []) <==> TabsTiled(m.workspace))
  {
    hide TabsTiled;
    var none: seq<Event> := [];
    assert none[..0] == none;
  }

  lemma EndsTiled<E>(k: Engine<E>, m: Machine<E>, events: seq<Event>)
    requires TiledThroughout(k, m, events)
    ensures TabsTiled(Run(k, m, events).workspace)
  {
    hide TabsTiled, Run;
    assert events[..|events|] == events;
  }
}
