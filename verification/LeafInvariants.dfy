/** What holds of a pane when it is made and is kept by splits, policy changes and the engine's updates holds
    of every leaf in every run. */
module LeafInvariants {
  import opened Types
  import opened PaneUpdate
  import opened Tree
  import opened Session
  import opened Core
  import opened EndToEnd

  ghost predicate AllSatisfy(P: Pane -> bool, leaves: seq<Pane>) {
    forall l | l in leaves :: P(l)
  }

  function WithPolicy(p: Pane, policy: ResizePolicy): Pane {
    p.(policy := policy)
  }

  function Resized(p: Pane, cols: u32, rows: u32): Pane {
    p.(cols := cols, rows := rows)
  }

  ghost predicate KeptByTree(P: Pane -> bool) {
    && (forall id, host, cols, rows :: P(NewPane(id, host, cols, rows)))
    && (forall p, cols, rows | P(p) :: P(Shrunk(p, cols, rows)))
    && (forall p, policy | P(p) :: P(WithPolicy(p, policy)))
  }

  ghost predicate KeptByEngine<E(!new)>(k: Engine<E>, P: Pane -> bool) {
    && (forall e, p, bytes | P(p) && k.output(e, p, bytes).1.Some? ::
          P(Updated(p, k.output(e, p, bytes).1.value, false)))
    && (forall e, p, cols, rows | P(p) && k.resize(e, p, cols, rows).1.Some? ::
          P(Updated(Resized(p, cols, rows), k.resize(e, p, cols, rows).1.value, true)))
  }

  lemma FoundLeaf(ps: seq<Pane>, id: string)
    requires FindIn(ps, id).Some? && FindIn(ps, id).value.children == []
    ensures FindIn(ps, id).value in Leaves(ps)
  {
    var i := ReplaceLeaf(ps, id, FindIn(ps, id).value);
  }

  // A node's update in place, when the property survives it on a leaf.
  lemma PutSatisfies(P: Pane -> bool, w: Workspace, id: string, q: Pane)
    requires AllSatisfy(P, AllLeaves(w)) && FindPane(w, id).Some? && SamePlace(FindPane(w, id).value, q)
    requires P(FindPane(w, id).value) && FindPane(w, id).value.children == [] ==> P(q)
    ensures AllSatisfy(P, AllLeaves(PutPane(w, id, q)))
  {
    hide Leaves, ReplaceFirst;
    var roots := Roots(w.tabs);
    assert Roots(PutPane(w, id, q).tabs) == ReplaceFirst(roots, id, q);
    if FindPane(w, id).value.children == [] {
      FoundLeaf(roots, id);
      var i := ReplaceLeaf(roots, id, q);
      ReplacedSatisfies(P, Leaves(roots), i, q);
    } else {
      ReplaceBranch(roots, id, q);
    }
  }

  lemma ReplacedSatisfies(P: Pane -> bool, leaves: seq<Pane>, i: nat, q: Pane)
    requires AllSatisfy(P, leaves) && i < |leaves| && P(q)
    ensures AllSatisfy(P, leaves[i := q])
  {
    forall l | l in leaves[i := q] ensures P(l) {
      var j :| 0 <= j < |leaves| && leaves[i := q][j] == l;
      assert j != i ==> l == leaves[j];
    }
  }

  lemma SplitSatisfies(P: Pane -> bool, before: seq<Pane>, after: seq<Pane>, i: nat, r: Request)
    requires KeptByTree(P) && AllSatisfy(P, before) && SplitsLeaf(before, after, i, r)
    ensures AllSatisfy(P, after)
  {
    hide Shrunk, NewPane, SplitChildSizes;
    var h := Halves(before[i], r);
    assert h == [h[0], h[1]] && P(h[0]) && P(h[1]);
    forall l | l in after ensures P(l) {
      if l !in h {
        assert l in before[..i] || l in before[i + 1..];
        assert l in before;
      }
    }
  }

  lemma StructuralSatisfies(P: Pane -> bool, w: Workspace, e: Event)
    requires KeptByTree(P) && AllSatisfy(P, AllLeaves(w)) && Structural(w, e).Some?
    ensures AllSatisfy(P, AllLeaves(Structural(w, e).value))
  {
    hide Leaves, LeavesOf, KeptByTree, AllSatisfy;
    if e.AddTab? {
      AddSatisfies(P, w, e);
    } else if e.CloseTab? {
      CloseSatisfies(P, w, e.tabId);
    } else if e.SplitPane? {
      SplitTabSatisfies(P, w, e.request);
    } else if e.SetPaneResizePolicy? {
      var p := FindPane(w, e.paneId).value;
      PolicyKept(P, p, e.policy);
      PutSatisfies(P, w, e.paneId, WithPolicy(p, e.policy));
    } else if e.SwitchTab? || e.FocusPane? {
      assert Roots(Structural(w, e).value.tabs) == Roots(w.tabs);
    }
  }

  lemma PolicyKept(P: Pane -> bool, p: Pane, policy: ResizePolicy)
    requires KeptByTree(P)
    ensures P(p) ==> P(WithPolicy(p, policy))
    ensures SamePlace(p, WithPolicy(p, policy))
  {
  }

  lemma AddSatisfies(P: Pane -> bool, w: Workspace, e: Event)
    requires KeptByTree(P) && AllSatisfy(P, AllLeaves(w)) && e.AddTab? && Structural(w, e).Some?
    ensures AllSatisfy(P, AllLeaves(Structural(w, e).value))
  {
    var v := Structural(w, e).value;
    var pane := v.tabs[|w.tabs|].root;
    assert Roots(v.tabs) == Roots(w.tabs) + [pane];
    LeavesJoin(Roots(w.tabs), [pane]);
    assert Leaves([pane]) == [pane];
    assert P(NewPane(e.paneId, e.host, pane.cols, pane.rows));
  }

  lemma CloseSatisfies(P: Pane -> bool, w: Workspace, tabId: string)
    requires AllSatisfy(P, AllLeaves(w)) && TabClosed(w, tabId).Some?
    ensures AllSatisfy(P, AllLeaves(TabClosed(w, tabId).value))
  {
    hide Leaves, LeavesOf;
    var v := TabClosed(w, tabId).value;
    var i := TabIndex(w.tabs, tabId).value;
    var roots := Roots(w.tabs);
    assert Roots(v.tabs) == roots[..i] + roots[i + 1..];
    LeavesAround(roots, i);
    LeavesJoin(roots[..i], roots[i + 1..]);
  }

  lemma SplitTabSatisfies(P: Pane -> bool, w: Workspace, r: Request)
    requires KeptByTree(P) && AllSatisfy(P, AllLeaves(w)) && PaneSplit(w, r).Some?
    ensures AllSatisfy(P, AllLeaves(PaneSplit(w, r).value))
  {
    hide Leaves, SplitOne, AllSatisfy, KeptByTree;
    var v := PaneSplit(w, r).value;
    var t := TabIndex(w.tabs, w.activeTabId).value;
    var root := SplitOne(w.tabs[t].root, r).value;
    assert Roots(v.tabs) == Roots(w.tabs)[t := root];
    var i := SplitInForest(Roots(w.tabs), t, r);
    SplitSatisfies(P, AllLeaves(w), AllLeaves(v), i, r);
  }

  lemma StepSatisfies<E(!new)>(k: Engine<E>, P: Pane -> bool, m: Machine<E>, i: u64, e: Event)
    requires KeptByTree(P) && KeptByEngine(k, P) && AllSatisfy(P, AllLeaves(m.workspace))
    ensures AllSatisfy(P, AllLeaves(Apply(k, m, i, e).machine.workspace))
  {
    hide AllSatisfy, Leaves, Updated, KeptByTree, Structural;
    var w := m.workspace;
    if e.PaneOutput? {
      var p, s := FindPane(w, e.paneId), EngineOf(k, m.engines, e.paneId);
      if p.Some? && k.output(s, p.value, e.bytes).1.Some? {
        var u := k.output(s, p.value, e.bytes).1.value;
        UpdateKeepsPlace(p.value, u, false);
        PutSatisfies(P, w, e.paneId, Updated(p.value, u, false));
      }
    } else if e.CommitPaneResize? {
      var p, s := FindPane(w, e.paneId), EngineOf(k, m.engines, e.paneId);
      if p.Some? && !(p.value.cols == e.cols && p.value.rows == e.rows)
        && k.resize(s, p.value, e.cols, e.rows).1.Some?
      {
        var u := k.resize(s, p.value, e.cols, e.rows).1.value;
        UpdateKeepsPlace(Resized(p.value, e.cols, e.rows), u, true);
        PutSatisfies(P, w, e.paneId, Updated(Resized(p.value, e.cols, e.rows), u, true));
      }
    } else if Structural(w, e).Some? {
      StructuralSatisfies(P, w, e);
    }
  }

  /** Leaf properties kept by every single step hold over every run. */
  lemma {:induction false} RunSatisfies<E(!new)>(k: Engine<E>, P: Pane -> bool, m: Machine<E>, events: seq<Event>)
    requires KeptByTree(P) && KeptByEngine(k, P) && AllSatisfy(P, AllLeaves(m.workspace))
    ensures AllSatisfy(P, AllLeaves(Run(k, m, events).workspace))
  {
    hide KeptByTree, KeptByEngine, AllSatisfy, AllLeaves, Apply;
    if events != [] {
      RunSatisfies(k, P, m, events[..|events| - 1]);
      StepSatisfies(k, P, Run(k, m, events[..|events| - 1]), 0, events[|events| - 1]);
    }
  }

  // ---------- row vectors ----------

  lemma UpdateAgrees(p: Pane, u: Update, force: bool)
    requires Coherent(p.scrollback)
    ensures RowsAgree(Updated(p, u, force))
  {
    UpdateKeepsRowsCoherent(p, u, force);
  }

  lemma NewAgrees(id: string, host: Host, cols: u32, rows: u32)
    ensures RowsAgree(NewPane(id, host, cols, rows))
  {
    var p := NewPane(id, host, cols, rows);
    PlainRowsCoherent(p.screen.lines);
    PlainRowsCoherent(p.scrollback.lines);
  }

  lemma InitialAgrees()
    ensures AllSatisfy(p => RowsAgree(p), AllLeaves(InitialWorkspace()))
  {
    var p := InitialWorkspace().tabs[0].root;
    NewAgrees("pane-1", p.host, 80, 24);
    assert Roots(InitialWorkspace().tabs) == [p];
    assert Leaves([p]) == [p];
  }

  /** For every engine and every run, the row vectors of every leaf agree: equal lengths, and the runs of each
      row spell its line. */
  lemma RowsAlwaysAgree<E(!new)>(k: Engine<E>, m: Machine<E>, events: seq<Event>, l: Pane)
    requires AllSatisfy(p => RowsAgree(p), AllLeaves(m.workspace))
    requires l in AllLeaves(Run(k, m, events).workspace)
    ensures RowsAgree(l)
  {
    hide Run, AllLeaves, Coherent;
    var P := p => RowsAgree(p);
    assert AllSatisfy(P, AllLeaves(m.workspace));
    forall id, host, cols, rows ensures P(NewPane(id, host, cols, rows)) {
      NewAgrees(id, host, cols, rows);
    }
    forall p, u, force | RowsAgree(p) ensures RowsAgree(Updated(p, u, force)) {
      UpdateAgrees(p, u, force);
    }
    assert KeptByTree(P);
    AgreementKept(k, P);
    RunSatisfies(k, P, m, events);
  }

  lemma AgreementKept<E(!new)>(k: Engine<E>, P: Pane -> bool)
    requires forall p :: P(p) == RowsAgree(p)
    ensures KeptByEngine(k, P)
  {
    hide Coherent;
    forall e, p, bytes | P(p) && k.output(e, p, bytes).1.Some?
      ensures P(Updated(p, k.output(e, p, bytes).1.value, false))
    {
      UpdateAgrees(p, k.output(e, p, bytes).1.value, false);
    }
    forall e, p, cols, rows | P(p) && k.resize(e, p, cols, rows).1.Some?
      ensures P(Updated(Resized(p, cols, rows), k.resize(e, p, cols, rows).1.value, true))
    {
      UpdateAgrees(Resized(p, cols, rows), k.resize(e, p, cols, rows).1.value, true);
    }
  }
}
