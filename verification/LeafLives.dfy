/** Versions over whole sessions: between two moments of a run a leaf lives a life of `Versions` as long as its
    tab is not closed in between, so its versions identify its content; once it was closed they do not. */
module LeafLives {
  import opened Types
  import Text
  import opened PaneUpdate
  import opened Mirror
  import opened Sync
  import opened Versions
  import opened Tree
  import opened Session
  import opened Core
  import opened EndToEnd
  import opened LeafInvariants
  import Interim
  import InterimEngine
  import LiveSession

  // ---------- one event ----------

  ghost predicate Became(p: Pane, q: Pane) {
    q == p || exists c :: q == Changed(p, c)
  }

  /** A leaf that is there before and after an event has changed at most once, in one of the ways of `Change`. */
  ghost predicate OnlyChange(before: seq<Pane>, after: seq<Pane>) {
    forall p, q | p in before && q in after && p.id == q.id :: Became(p, q)
  }

  lemma SameIdSame(leaves: seq<Pane>, p: Pane, q: Pane)
    requires Distinct(Ids(leaves)) && p in leaves && q in leaves && p.id == q.id
    ensures p == q
  {
    var i :| 0 <= i < |leaves| && leaves[i] == p;
    var j :| 0 <= j < |leaves| && leaves[j] == q;
    assert Ids(leaves)[i] == Ids(leaves)[j];
  }

  lemma KeptOrNew(before: seq<Pane>, after: seq<Pane>)
    requires Distinct(Ids(before)) && forall q | q in after :: q in before || q.id !in Ids(before)
    ensures OnlyChange(before, after)
  {
    hide Distinct, Ids, Changed;
    forall p, q | p in before && q in after && p.id == q.id ensures Became(p, q) {
      MemberId(before, p);
      SameIdSame(before, p, q);
    }
  }

  lemma ReplacedOnlyChanges(before: seq<Pane>, i: nat, q: Pane)
    requires Distinct(Ids(before)) && i < |before| && q.id == before[i].id && Became(before[i], q)
    ensures OnlyChange(before, before[i := q])
  {
    hide Distinct, Ids, Changed, Became;
    forall p, x | p in before && x in before[i := q] && p.id == x.id ensures Became(p, x) {
      ReplacedMembers(before, i, q, x);
      SameIdSame(before, p, if x == q then before[i] else x);
      Unchanged(p);
    }
  }

  lemma Unchanged(p: Pane)
    ensures Became(p, p)
  {
  }

  lemma ChangeBecomes(p: Pane, c: Change)
    ensures Became(p, Changed(p, c))
  {
  }

  lemma PutOnlyChanges(w: Workspace, id: string, q: Pane)
    requires Good(w) && FindPane(w, id).Some? && SamePlace(FindPane(w, id).value, q) && Became(FindPane(w, id).value, q)
    ensures OnlyChange(AllLeaves(w), AllLeaves(PutPane(w, id, q)))
  {
    hide Leaves, ReplaceFirst, Binary, Became, OnlyChange;
    var roots := Roots(w.tabs);
    assert Roots(PutPane(w, id, q).tabs) == ReplaceFirst(roots, id, q);
    if FindPane(w, id).value.children == [] {
      var i := ReplaceLeaf(roots, id, q);
      ReplacedOnlyChanges(Leaves(roots), i, q);
    } else {
      ReplaceBranch(roots, id, q);
      KeptOrNew(Leaves(roots), Leaves(roots));
    }
  }

  lemma SplitOnlyChanges(before: seq<Pane>, after: seq<Pane>, i: nat, r: Request)
    requires SplitsLeaf(before, after, i, r) && Distinct(Ids(before)) && r.newId !in Ids(before)
    ensures OnlyChange(before, after)
  {
    hide Distinct, Ids, Shrunk, NewPane, SplitChildSizes;
    var h := Halves(before[i], r);
    var s := SplitChildSizes(before[i].cols, before[i].rows, r.axis).value;
    HalvesIds(before[i], r);
    assert h == [h[0], h[1]];
    ChangeBecomes(before[i], Split(s.cols1, s.rows1));
    forall p, q | p in before && q in after && p.id == q.id ensures Became(p, q) {
      MemberId(before, p);
      if q in h {
        SameIdSame(before, p, before[i]);
      } else {
        assert q in before[..i] || q in before[i + 1..];
        SameIdSame(before, p, q);
      }
    }
  }

  lemma StructuralOnlyChanges(w: Workspace, e: Event)
    requires Good(w) && Structural(w, e).Some?
    ensures OnlyChange(AllLeaves(w), AllLeaves(Structural(w, e).value))
  {
    hide Leaves, LeavesOf, OnlyChange, Became, SplitOne, NewPane, Binary, FindIn;
    var v := Structural(w, e).value;
    var roots := Roots(w.tabs);
    if e.AddTab? {
      var active := w.tabs[TabIndex(w.tabs, w.activeTabId).value].root;
      AddedLeaves(w, e);
      UnknownIsNoLeaf(roots, e.paneId);
      NewPaneId(e.paneId, e.host, active.cols, active.rows);
      KeptOrNew(AllLeaves(w), AllLeaves(v));
    } else if e.CloseTab? {
      ClosedLeaves(w, e.tabId);
      KeptOrNew(AllLeaves(w), AllLeaves(v));
    } else if e.SplitPane? {
      var i := SplitLeaves(w, e.request);
      UnknownIsNoLeaf(roots, e.request.newId);
      SplitOnlyChanges(AllLeaves(w), AllLeaves(v), i, e.request);
    } else if e.SetPaneResizePolicy? {
      var p := FindPane(w, e.paneId).value;
      ChangeBecomes(p, Policy(e.policy));
      PutOnlyChanges(w, e.paneId, p.(policy := e.policy));
    } else {
      assert Roots(v.tabs) == roots;
      KeptOrNew(AllLeaves(w), AllLeaves(v));
    }
  }

  lemma NewPaneId(id: string, host: Host, cols: u32, rows: u32)
    ensures NewPane(id, host, cols, rows).id == id
  {
  }

  lemma AddedLeaves(w: Workspace, e: Event)
    requires e.AddTab? && Structural(w, e).Some?
    ensures var v := Structural(w, e).value;
            var i := TabIndex(w.tabs, w.activeTabId);
            && i.Some? && AllLeaves(v) == AllLeaves(w)
               + [NewPane(e.paneId, e.host, w.tabs[i.value].root.cols, w.tabs[i.value].root.rows)]
  {
    var v := Structural(w, e).value;
    var pane := v.tabs[|w.tabs|].root;
    assert Roots(v.tabs) == Roots(w.tabs) + [pane];
    LeavesJoin(Roots(w.tabs), [pane]);
    assert Leaves([pane]) == [pane];
  }

  function TabLeaves(w: Workspace, tabId: string): seq<Pane> {
    var i := TabIndex(w.tabs, tabId);
    if i.None? then [] else LeavesOf(w.tabs[i.value].root)
  }

  lemma ClosedLeaves(w: Workspace, tabId: string)
    requires Good(w) && TabClosed(w, tabId).Some?
    ensures var v := TabClosed(w, tabId).value;
            && (forall l | l in AllLeaves(v) :: l in AllLeaves(w) && !Carried(l.id, TabLeaves(w, tabId)))
            && (forall l | l in AllLeaves(w) :: l in AllLeaves(v) || l in TabLeaves(w, tabId))
  {
    hide Leaves, LeavesOf, Binary;
    var v := TabClosed(w, tabId).value;
    var i := TabIndex(w.tabs, tabId).value;
    var roots := Roots(w.tabs);
    assert Roots(v.tabs) == roots[..i] + roots[i + 1..];
    LeavesAround(roots, i);
    LeavesJoin(roots[..i], roots[i + 1..]);
    forall l | l in AllLeaves(v) ensures !Carried(l.id, TabLeaves(w, tabId)) {
      BothSidesApart(Leaves(roots[..i]), LeavesOf(roots[i]), Leaves(roots[i + 1..]), l);
      CarriedIds(TabLeaves(w, tabId), l.id);
    }
  }

  lemma SplitLeaves(w: Workspace, r: Request) returns (i: nat)
    requires PaneSplit(w, r).Some?
    ensures SplitsLeaf(AllLeaves(w), AllLeaves(PaneSplit(w, r).value), i, r)
  {
    hide Leaves, SplitOne;
    var v := PaneSplit(w, r).value;
    var t := TabIndex(w.tabs, w.activeTabId).value;
    var root := SplitOne(w.tabs[t].root, r).value;
    assert Roots(v.tabs) == Roots(w.tabs)[t := root];
    i := SplitInForest(Roots(w.tabs), t, r);
  }

  lemma StepOnlyChanges<E>(k: Engine<E>, m: Machine<E>, i: u64, e: Event)
    requires Good(m.workspace)
    ensures OnlyChange(AllLeaves(m.workspace), AllLeaves(Apply(k, m, i, e).machine.workspace))
  {
    hide Good, Leaves, Updated, OnlyChange, Structural, Became;
    var w := m.workspace;
    SameLeaves(w);
    if e.PaneOutput? {
      var p, s := FindPane(w, e.paneId), EngineOf(k, m.engines, e.paneId);
      if p.Some? && k.output(s, p.value, e.bytes).1.Some? {
        var u := k.output(s, p.value, e.bytes).1.value;
        UpdateKeepsPlace(p.value, u, false);
        ChangeBecomes(p.value, Output(u));
        PutOnlyChanges(w, e.paneId, Updated(p.value, u, false));
      }
    } else if e.CommitPaneResize? {
      var p, s := FindPane(w, e.paneId), EngineOf(k, m.engines, e.paneId);
      if p.Some? && !(p.value.cols == e.cols && p.value.rows == e.rows)
        && k.resize(s, p.value, e.cols, e.rows).1.Some?
      {
        var u := k.resize(s, p.value, e.cols, e.rows).1.value;
        UpdateKeepsPlace(Resized(p.value, e.cols, e.rows), u, true);
        ChangeBecomes(p.value, Resize(e.cols, e.rows, u));
        PutOnlyChanges(w, e.paneId, Updated(Resized(p.value, e.cols, e.rows), u, true));
      }
    } else if Structural(w, e).Some? {
      StructuralOnlyChanges(w, e);
    }
  }

  lemma GoodLeaves(w: Workspace)
    requires Good(w)
    ensures Distinct(Ids(AllLeaves(w)))
  {
  }

  lemma SameLeaves(w: Workspace)
    requires Good(w)
    ensures OnlyChange(AllLeaves(w), AllLeaves(w))
  {
    KeptOrNew(AllLeaves(w), AllLeaves(w));
  }

  // ---------- when a leaf goes away ----------

  /** The event closes the tab that holds the leaf. */
  ghost predicate Closes(w: Workspace, e: Event, id: string) {
    e.CloseTab? && TabClosed(w, e.tabId).Some? && Carried(id, TabLeaves(w, e.tabId))
  }

  lemma CarriedIds(leaves: seq<Pane>, id: string)
    ensures Carried(id, leaves) <==> id in Ids(leaves)
  {
    if id in Ids(leaves) {
      var i :| 0 <= i < |leaves| && Ids(leaves)[i] == id;
      assert leaves[i] in leaves;
    }
    if Carried(id, leaves) {
      var l :| l in leaves && l.id == id;
      MemberId(leaves, l);
    }
  }

  lemma PutCarries(w: Workspace, id: string, q: Pane, other: string)
    requires FindPane(w, id).Some? && SamePlace(FindPane(w, id).value, q)
    ensures Carried(other, AllLeaves(PutPane(w, id, q))) <==> Carried(other, AllLeaves(w))
  {
    hide Leaves, Carried;
    assert Roots(PutPane(w, id, q).tabs) == ReplaceFirst(Roots(w.tabs), id, q);
    ReplaceKeepsLeafIds(Roots(w.tabs), id, q);
    CarriedIds(AllLeaves(w), other);
    CarriedIds(AllLeaves(PutPane(w, id, q)), other);
  }

  lemma CloseCarries(w: Workspace, tabId: string, id: string)
    requires Good(w) && TabClosed(w, tabId).Some? && Carried(id, AllLeaves(w))
    ensures Carried(id, AllLeaves(TabClosed(w, tabId).value)) <==> !Carried(id, TabLeaves(w, tabId))
  {
    hide Leaves, LeavesOf, TabLeaves, Good, TabClosed;
    ClosedLeaves(w, tabId);
    var l :| l in AllLeaves(w) && l.id == id;
    if Carried(id, AllLeaves(TabClosed(w, tabId).value)) {
      var x :| x in AllLeaves(TabClosed(w, tabId).value) && x.id == id;
    }
  }

  lemma GrownCarries(before: seq<Pane>, after: seq<Pane>, id: string)
    requires Carried(id, before) && forall x | x in Ids(before) :: x in Ids(after)
    ensures Carried(id, after)
  {
    CarriedIds(before, id);
    CarriedIds(after, id);
  }

  /** A leaf goes away exactly when its tab is closed. */
  lemma StepCarries<E>(k: Engine<E>, m: Machine<E>, i: u64, e: Event, id: string)
    requires Good(m.workspace) && Carried(id, AllLeaves(m.workspace))
    ensures Carried(id, AllLeaves(Apply(k, m, i, e).machine.workspace)) <==> !Closes(m.workspace, e, id)
  {
    hide Good, Leaves, LeavesOf, Updated, Carried, TabClosed, SplitOne, NewPane;
    var w := m.workspace;
    if e.PaneOutput? {
      var p, s := FindPane(w, e.paneId), EngineOf(k, m.engines, e.paneId);
      if p.Some? && k.output(s, p.value, e.bytes).1.Some? {
        var u := k.output(s, p.value, e.bytes).1.value;
        UpdateKeepsPlace(p.value, u, false);
        PutCarries(w, e.paneId, Updated(p.value, u, false), id);
      }
    } else if e.CommitPaneResize? {
      var p, s := FindPane(w, e.paneId), EngineOf(k, m.engines, e.paneId);
      if p.Some? && !(p.value.cols == e.cols && p.value.rows == e.rows)
        && k.resize(s, p.value, e.cols, e.rows).1.Some?
      {
        var u := k.resize(s, p.value, e.cols, e.rows).1.value;
        UpdateKeepsPlace(Resized(p.value, e.cols, e.rows), u, true);
        PutCarries(w, e.paneId, Updated(Resized(p.value, e.cols, e.rows), u, true), id);
      }
    } else if Structural(w, e).Some? {
      StructuralCarries(w, e, id);
    }
  }

  lemma StructuralCarries(w: Workspace, e: Event, id: string)
    requires Good(w) && Carried(id, AllLeaves(w)) && Structural(w, e).Some?
    ensures Carried(id, AllLeaves(Structural(w, e).value)) <==> !Closes(w, e, id)
  {
    hide Leaves, LeavesOf, Carried, SplitOne, NewPane, Good, FindIn, TabClosed;
    var v := Structural(w, e).value;
    if e.AddTab? {
      AddedLeaves(w, e);
      IdsJoin(AllLeaves(w), AllLeaves(v)[|AllLeaves(w)|..]);
      GrownCarries(AllLeaves(w), AllLeaves(v), id);
    } else if e.CloseTab? {
      CloseCarries(w, e.tabId, id);
    } else if e.SplitPane? {
      var i := SplitLeaves(w, e.request);
      SplitInsertsId(AllLeaves(w), AllLeaves(v), i, e.request);
      var ids := Ids(AllLeaves(w));
      assert ids == ids[..i + 1] + ids[i + 1..];
      GrownCarries(AllLeaves(w), AllLeaves(v), id);
    } else if e.SetPaneResizePolicy? {
      PutCarries(w, e.paneId, FindPane(w, e.paneId).value.(policy := e.policy), id);
    } else {
      assert Roots(v.tabs) == Roots(w.tabs);
    }
  }

  // ---------- whole runs ----------

  function MachineAt<E>(k: Engine<E>, m: Machine<E>, events: seq<Event>, n: nat): Machine<E>
    requires n <= |events|
  {
    Run(k, m, events[..n])
  }

  function LeavesAt<E>(k: Engine<E>, m: Machine<E>, events: seq<Event>, n: nat): seq<Pane>
    requires n <= |events|
  {
    AllLeaves(MachineAt(k, m, events, n).workspace)
  }

  /** The leaf's tab is not closed by the events from `i` up to `j`. */
  ghost predicate StaysOpen<E>(k: Engine<E>, m: Machine<E>, events: seq<Event>, id: string, i: nat, j: nat)
    requires i <= j <= |events|
  {
    forall n | i <= n < j :: !Closes(MachineAt(k, m, events, n).workspace, events[n], id)
  }

  lemma OneMore<E>(k: Engine<E>, m: Machine<E>, events: seq<Event>, n: nat)
    requires n < |events|
    ensures MachineAt(k, m, events, n + 1) == Apply(k, MachineAt(k, m, events, n), 0, events[n]).machine
  {
    assert events[..n + 1][..n] == events[..n];
  }

  /** A leaf is there until its tab is closed, and between two moments it lives a life of single changes. */
  lemma {:induction false} LeafStays<E>(
      k: Engine<E>, m: Machine<E>, events: seq<Event>, i: nat, j: nat, p: Pane)
    returns (q: Pane, changes: seq<Change>)
    requires Good(m.workspace) && i <= j <= |events|
    requires p in LeavesAt(k, m, events, i) && StaysOpen(k, m, events, p.id, i, j)
    ensures q in LeavesAt(k, m, events, j) && q.id == p.id && q == Life(p, changes)
    decreases j
  {
    hide Good, Run, Apply, AllLeaves, Closes, Changed, OnlyChange;
    if i == j {
      q, changes := p, [];
    } else {
      var r, before := LeafStays(k, m, events, i, j - 1, p);
      RunKeepsGood(k, m, events[..j - 1]);
      var mid := MachineAt(k, m, events, j - 1);
      OneMore(k, m, events, j - 1);
      assert Carried(p.id, AllLeaves(mid.workspace));
      StepCarries(k, mid, 0, events[j - 1], p.id);
      StepOnlyChanges(k, mid, 0, events[j - 1]);
      var after := LeavesAt(k, m, events, j);
      q :| q in after && q.id == p.id;
      TheyBecame(AllLeaves(mid.workspace), after, r, q);
      if q == r {
        changes := before;
      } else {
        var c :| q == Changed(r, c);
        LifeMore(p, before, c);
        changes := before + [c];
      }
    }
  }

  lemma TheyBecame(before: seq<Pane>, after: seq<Pane>, p: Pane, q: Pane)
    requires OnlyChange(before, after) && p in before && q in after && p.id == q.id
    ensures Became(p, q)
  {
  }

  /** In every run of a session, whatever its engine: between two moments of a leaf whose tab was not closed in
      between, versions never decrease, equal surface versions mean equal views, and equal scrollback versions
      mean equal scrollbacks (short of the saturated counter). */
  lemma VersionsIdentifyContent<E(!new)>(
      k: Engine<E>, m: Machine<E>, events: seq<Event>, i: nat, j: nat, p: Pane, q: Pane)
    requires Good(m.workspace) && AllSatisfy(x => RowsAgree(x), AllLeaves(m.workspace)) && i <= j <= |events|
    requires p in LeavesAt(k, m, events, i) && q in LeavesAt(k, m, events, j) && q.id == p.id
    requires StaysOpen(k, m, events, p.id, i, j)
    ensures RowsAgree(p) && RowsAgree(q)
    ensures p.surfaceVersion <= q.surfaceVersion && p.scrollbackVersion <= q.scrollbackVersion
    ensures q.surfaceVersion == p.surfaceVersion < U64_MAX ==> ViewOf(q) == ViewOf(p)
    ensures q.scrollbackVersion == p.scrollbackVersion < U64_MAX ==> q.scrollback == p.scrollback
  {
    hide Run, AllLeaves, Closes, Changed, ViewOf, Life, StaysOpen, AllSatisfy, Coherent, Binary;
    RowsAlwaysAgree(k, m, events[..i], p);
    var r, changes := LeafStays(k, m, events, i, j, p);
    RunKeepsGood(k, m, events[..j]);
    GoodLeaves(Run(k, m, events[..j]).workspace);
    SameIdSame(LeavesAt(k, m, events, j), q, r);
    VersionIdentifiesContent(p, changes);
  }

  // ---------- the same id again ----------

  lemma {:induction false} FindLast(ps: seq<Pane>, id: string, q: Pane, r: Pane)
    requires FindIn(ps, id).None? && q.id == id
    ensures FindIn(ps + [q], id) == Some(q) && ReplaceFirst(ps + [q], id, r) == ps + [r]
    decreases |ps|
  {
    if ps == [] {
      assert [q][1..] == [];
    } else {
      FindLast(ps[1..], id, q, r);
      assert (ps + [q])[1..] == ps[1..] + [q];
      assert [ps[0]] + (ps[1..] + [r]) == ps + [r];
    }
  }

  function PaneOfTab(w: Workspace, paneId: string, host: Host): Pane {
    var i := TabIndex(w.tabs, w.activeTabId);
    if i.None? then NewPane(paneId, host, 0, 0)
    else NewPane(paneId, host, w.tabs[i.value].root.cols, w.tabs[i.value].root.rows)
  }

  lemma PutLast(w: Workspace, v: Workspace, t: Tab, paneId: string, q: Pane)
    requires FindPane(w, paneId).None? && v.tabs == w.tabs + [t] && t.root.id == paneId
    ensures FindPane(v, paneId) == Some(t.root) && PutPane(v, paneId, q) == v.(tabs := w.tabs + [t.(root := q)])
  {
    hide FindIn, ReplaceFirst;
    assert Roots(v.tabs) == Roots(w.tabs) + [t.root];
    FindLast(Roots(w.tabs), paneId, t.root, q);
    assert WithRoots(v.tabs, Roots(w.tabs) + [q]) == w.tabs + [t.(root := q)];
  }

  // A new tab whose pane prints once.
  lemma OpenAndPrint<E>(k: Engine<E>, m: Machine<E>, e: Event, bytes: seq<byte>, state: E, u: Update)
    requires e.AddTab? && Structural(m.workspace, e).Some?
    requires k.output(EngineOf(k, m.engines, e.paneId), PaneOfTab(m.workspace, e.paneId, e.host), bytes)
             == (state, Some(u))
    ensures var w := m.workspace;
            var q := Updated(PaneOfTab(w, e.paneId, e.host), u, false);
            Apply(k, Apply(k, m, 0, e).machine, 0, PaneOutput(e.paneId, bytes)).machine
            == Machine(Bumped(w).(tabs := w.tabs + [Tab(e.tabId, e.title, e.paneId, q)]), m.engines[e.paneId := state])
  {
    hide FindIn, Updated;
    var w := m.workspace;
    var p := PaneOfTab(w, e.paneId, e.host);
    NewPaneId(e.paneId, e.host, p.cols, p.rows);
    PutLast(w, Structural(w, e).value, Tab(e.tabId, e.title, e.paneId, p), e.paneId, Updated(p, u, false));
  }

  lemma CloseLast(w: Workspace, tabs: seq<Tab>, t: Tab)
    requires w.tabs == tabs + [t] && TabIndex(tabs, t.id).None? && TabIndex(tabs, w.activeTabId).Some?
    ensures TabClosed(w, t.id) == Some(Bumped(w).(tabs := tabs))
  {
    var i := TabIndex(w.tabs, t.id);
    assert w.tabs[|tabs|].id == t.id;
    assert i == Some(|tabs|);
    assert w.tabs[..|tabs|] + w.tabs[|tabs| + 1..] == tabs;
  }

  lemma LastIsLeaf(w: Workspace, tabs: seq<Tab>, t: Tab)
    requires w.tabs == tabs + [t] && t.root.children == []
    ensures t.root in AllLeaves(w)
  {
    assert Roots(w.tabs) == Roots(tabs) + [t.root];
    LeavesJoin(Roots(tabs), [t.root]);
    assert Leaves([t.root]) == [t.root];
  }

  function Reopening(e: Event, a: seq<byte>, b: seq<byte>): seq<Event>
    requires e.AddTab?
  {
    [e, PaneOutput(e.paneId, a), CloseTab(e.tabId), e, PaneOutput(e.paneId, b)]
  }

  lemma ReopeningRuns<E>(k: Engine<E>, m: Machine<E>, e: Event, a: seq<byte>, b: seq<byte>)
    requires e.AddTab?
    ensures var mid := Apply(k, Apply(k, m, 0, e).machine, 0, PaneOutput(e.paneId, a)).machine;
            var closed := Apply(k, mid, 0, CloseTab(e.tabId)).machine;
            && MachineAt(k, m, Reopening(e, a, b), 2) == mid
            && MachineAt(k, m, Reopening(e, a, b), 5)
               == Apply(k, Apply(k, closed, 0, e).machine, 0, PaneOutput(e.paneId, b)).machine
  {
    hide Apply;
    var events := Reopening(e, a, b);
    assert MachineAt(k, m, events, 0) == m;
    OneMore(k, m, events, 0);
    OneMore(k, m, events, 1);
    OneMore(k, m, events, 2);
    OneMore(k, m, events, 3);
    OneMore(k, m, events, 4);
  }

  /** A tab closed and opened again with the same pane id starts over: after one visible output each, both panes
      carry the id and version two, whatever they show. So not being closed in between is needed above. */
  lemma ReopenedPaneStartsOver<E>(
      k: Engine<E>, m: Machine<E>, e: Event, a: seq<byte>, b: seq<byte>, s: E, u: Update, t: E, v: Update)
    requires Good(m.workspace) && e.AddTab? && Structural(m.workspace, e).Some?
    requires var p := PaneOfTab(m.workspace, e.paneId, e.host);
             && k.output(EngineOf(k, m.engines, e.paneId), p, a) == (s, Some(u)) && SurfaceChanged(p, u, false)
             && k.output(s, p, b) == (t, Some(v)) && SurfaceChanged(p, v, false)
    ensures var p := PaneOfTab(m.workspace, e.paneId, e.host);
            && Updated(p, u, false) in LeavesAt(k, m, Reopening(e, a, b), 2)
            && Updated(p, v, false) in LeavesAt(k, m, Reopening(e, a, b), 5)
            && Updated(p, u, false).id == Updated(p, v, false).id == e.paneId
            && Updated(p, u, false).surfaceVersion == Updated(p, v, false).surfaceVersion == 2
  {
    hide Good, AllLeaves, FindIn, Run, SurfaceChanged, KindOfChange;
    var w := m.workspace;
    var p := PaneOfTab(w, e.paneId, e.host);
    var q, r := Updated(p, u, false), Updated(p, v, false);
    ReopeningRuns(k, m, e, a, b);
    OpenAndPrint(k, m, e, a, s, u);
    var tab := Tab(e.tabId, e.title, e.paneId, q);
    var mid := Machine(Bumped(w).(tabs := w.tabs + [tab]), m.engines[e.paneId := s]);
    LastIsLeaf(mid.workspace, w.tabs, tab);
    CloseLast(mid.workspace, w.tabs, tab);
    var closed := Machine(Bumped(mid.workspace).(tabs := w.tabs), mid.engines);
    OpenAndPrint(k, closed, e, b, t, v);
    LastIsLeaf(MachineAt(k, m, Reopening(e, a, b), 5).workspace, w.tabs, Tab(e.tabId, e.title, e.paneId, r));
  }

  // ---------- on the interim engine ----------

  // What a new pane shows after one printable character.
  lemma PrintedCharacter(p: Pane, c: byte)
    requires 0x20 <= c < 0x7f && p.scrollback.lines != [] && p.cursor.col == 0
    ensures var (s, u) := InterimEngine.EngineOutput(Interim.Ground, p, [c]);
            && s == Interim.Ground
            && u.screen == PlainRows(InterimEngine.Tail(p.scrollback.lines + [[c as char]], p.rows))
  {
    InterimEngine.OneVisible(p.modes, c);
    assert [c][1..] == [];
    assert Text.Lossy([c]) == [c as char];
    var text := [c as char];
    assert text[1..] == "" && text[..0] == "";
    Interim.CrLfHead(text);
    assert Interim.CrLfToLf(text) == [text[0]] + "";
    assert Interim.Newlines(text) == text;
    assert Interim.Printed(Interim.Tape(p.scrollback.lines, false), text)
           == Interim.PrintChar(Interim.Tape(p.scrollback.lines, false), c as char);
  }

  lemma LastShownRow(p: Pane, lines: seq<string>, line: string)
    requires p.rows >= 1 && p.screen == PlainRows(InterimEngine.Tail(lines + [line], p.rows))
    ensures Sized(p.screen, |p.screen.lines|) && ViewOf(p).screen.lines[Min(|lines|, p.rows - 1)] == line
  {
    PlainRunText(line);
    WireTextSame([PlainRun(line)]);
  }

  /** On the interim engine this happens in every session: one character printed before and another printed after
      the tab was closed and opened again give different views under the same id and version. */
  lemma ReusedIdRepeatsVersion(m: Machine<Interim.AnsiState>, e: Event, c: byte, d: byte)
    requires Good(m.workspace) && e.AddTab? && Structural(m.workspace, e).Some? && e.paneId !in m.engines
    requires 0x20 <= c < 0x7f && 0x20 <= d < 0x7f && c != d && PaneOfTab(m.workspace, e.paneId, e.host).rows >= 1
    ensures var k, events := LiveSession.InterimKind(), Reopening(e, [c], [d]);
            exists q, r | q in LeavesAt(k, m, events, 2) && r in LeavesAt(k, m, events, 5) ::
              q.id == r.id && q.surfaceVersion == r.surfaceVersion
              && Sized(q.screen, |q.screen.lines|) && Sized(r.screen, |r.screen.lines|) && ViewOf(q) != ViewOf(r)
  {
    hide Good, LeavesAt, InterimEngine.EngineOutput;
    var k := LiveSession.InterimKind();
    var p := PaneOfTab(m.workspace, e.paneId, e.host);
    var u := InterimEngine.EngineOutput(Interim.Ground, p, [c]).1;
    var v := InterimEngine.EngineOutput(Interim.Ground, p, [d]).1;
    PrintedCharacter(p, c);
    PrintedCharacter(p, d);
    VisibleOutput(p, u, c);
    VisibleOutput(p, v, d);
    ReopenedPaneStartsOver(k, m, e, [c], [d], Interim.Ground, u, Interim.Ground, v);
    var q, r := Updated(p, u, false), Updated(p, v, false);
    assert ViewOf(q).screen.lines[Min(3, p.rows - 1)] != ViewOf(r).screen.lines[Min(3, p.rows - 1)];
  }

  lemma VisibleOutput(p: Pane, u: Update, c: byte)
    requires p.rows >= 1 && |p.scrollback.lines| == 3 && exists id, host, cols :: p == NewPane(id, host, cols, p.rows)
    requires 0x20 <= c < 0x7f && u.screen == PlainRows(InterimEngine.Tail(p.scrollback.lines + [[c as char]], p.rows))
    ensures var q := Updated(p, u, false);
            && SurfaceChanged(p, u, false)
            && Sized(q.screen, |q.screen.lines|) && ViewOf(q).screen.lines[Min(3, p.rows - 1)] == [c as char]
  {
    var lines := InterimEngine.Tail(p.scrollback.lines + [[c as char]], p.rows);
    PlainRowsCoherent(lines);
    NormalizeCoherent(PlainRows(lines));
    TruncateCoherent(PlainRows(lines), p.rows);
    var q := Updated(p, u, false);
    assert q.screen == PlainRows(lines);
    LastShownRow(q, p.scrollback.lines, [c as char]);
    assert lines[|lines| - 1] == [c as char];
    assert p.screen.lines[1] == "server-owned terminal state";
  }
}
