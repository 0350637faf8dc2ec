/** The workspace of a session: tabs, each with a pane tree, and the operations events perform on them. */
module Session {
  import opened Types
  import opened PaneUpdate
  import opened Tree

  datatype Tab = Tab(id: string, title: string, activePaneId: string, root: Pane)

  datatype Workspace = Workspace(id: string, version: u64, activeTabId: string, tabs: seq<Tab>)

  /** A terminal engine as the session sees it: a state per pane, and updates computed from that state, the
      pane and the input. `None` means the engine has nothing to report. */
  datatype Engine<!E> = Engine(
    initial: E, output: (E, Pane, seq<byte>) -> (E, Option<Update>), resize: (E, Pane, u32, u32) -> (E, Option<Update>))

  // The first tab with the id.
  function TabIndex(tabs: seq<Tab>, id: string): (r: Option<nat>)
    ensures r.Some? ==> r.value < |tabs| && tabs[r.value].id == id
    ensures r.None? ==> forall j | 0 <= j < |tabs| :: tabs[j].id != id
  {
    if tabs == [] then None
    else if tabs[0].id == id then Some(0)
    else
      var rest := TabIndex(tabs[1..], id);
      if rest.Some? then Some(rest.value + 1) else None
  }

  function Roots(tabs: seq<Tab>): seq<Pane> {
    seq(|tabs|, i requires 0 <= i < |tabs| => tabs[i].root)
  }

  function WithRoots(tabs: seq<Tab>, roots: seq<Pane>): seq<Tab>
    requires |roots| == |tabs|
  {
    seq(|tabs|, i requires 0 <= i < |tabs| => tabs[i].(root := roots[i]))
  }

  function FindPane(w: Workspace, id: string): Option<Pane> {
    FindIn(Roots(w.tabs), id)
  }

  function PutPane(w: Workspace, id: string, q: Pane): Workspace {
    w.(tabs := WithRoots(w.tabs, ReplaceFirst(Roots(w.tabs), id, q)))
  }

  function Bumped(w: Workspace): Workspace {
    w.(version := SatInc(w.version))
  }

  // ---------- specification of the operations (`None`: rejected, nothing changes) ----------

  function TabAdded(w: Workspace, tabId: string, title: string, paneId: string, host: Host): Option<Workspace> {
    var active := TabIndex(w.tabs, w.activeTabId);
    if tabId == "" || paneId == "" || TabIndex(w.tabs, tabId).Some? || FindPane(w, paneId).Some? || active.None?
    then None
    else
      var root := w.tabs[active.value].root;
      Some(Bumped(w).(tabs := w.tabs + [Tab(tabId, title, paneId, NewPane(paneId, host, root.cols, root.rows))]))
  }

  function HasActivePane(t: Tab): bool {
    FindIn([t.root], t.activePaneId).Some?
  }

  function TabSwitched(w: Workspace, tabId: string): Option<Workspace> {
    var index := TabIndex(w.tabs, tabId);
    if index.None? || !HasActivePane(w.tabs[index.value]) || w.activeTabId == tabId then None
    else Some(Bumped(w).(activeTabId := tabId))
  }

  function TabClosed(w: Workspace, tabId: string): Option<Workspace> {
    var index := TabIndex(w.tabs, tabId);
    if |w.tabs| <= 1 || index.None? then None
    else
      var rest := w.tabs[..index.value] + w.tabs[index.value + 1..];
      Some(Bumped(w).(tabs := rest,
           activeTabId := if w.activeTabId == tabId then rest[Min(index.value, |rest| - 1)].id else w.activeTabId))
  }

  function PaneFocused(w: Workspace, paneId: string): Option<Workspace> {
    var index := TabIndex(w.tabs, w.activeTabId);
    if index.None? || FindIn([w.tabs[index.value].root], paneId).None?
       || w.tabs[index.value].activePaneId == paneId then None
    else Some(Bumped(w).(tabs := w.tabs[index.value := w.tabs[index.value].(activePaneId := paneId)]))
  }

  function PaneSplit(w: Workspace, r: Request): Option<Workspace> {
    var index := TabIndex(w.tabs, w.activeTabId);
    if r.axis == NoSplit || r.newId == "" || FindPane(w, r.newId).Some? || index.None? then None
    else
      var tab := w.tabs[index.value];
      var root := SplitOne(tab.root, r);
      if root.None? then None
      else Some(Bumped(w).(tabs := w.tabs[index.value := tab.(root := root.value, activePaneId := r.newId)]))
  }

  function PolicySet(w: Workspace, paneId: string, policy: ResizePolicy): Option<Workspace> {
    var p := FindPane(w, paneId);
    if p.None? || p.value.policy == policy then None
    else Some(Bumped(PutPane(w, paneId, p.value.(policy := policy))))
  }

  function UpdateReported(p: Pane, u: Update, force: bool): bool {
    SurfaceChanged(p, u, force) || NextScrollback(p, u) != p.scrollback
  }

  datatype EngineStep<E> = EngineStep(state: E, workspace: Workspace, changed: bool)

  function OutputApplied<E>(k: Engine<E>, e: E, w: Workspace, paneId: string, bytes: seq<byte>): EngineStep<E> {
    var p := FindPane(w, paneId);
    if p.None? then EngineStep(e, w, false)
    else
      var (next, u) := k.output(e, p.value, bytes);
      if u.None? then EngineStep(next, w, false)
      else EngineStep(next, PutPane(w, paneId, Updated(p.value, u.value, false)),
                      UpdateReported(p.value, u.value, false))
  }

  function ResizeCommitted<E>(k: Engine<E>, e: E, w: Workspace, paneId: string, cols: u32, rows: u32): EngineStep<E> {
    var p := FindPane(w, paneId);
    if p.None? || (p.value.cols == cols && p.value.rows == rows) then EngineStep(e, w, false)
    else
      var (next, u) := k.resize(e, p.value, cols, rows);
      if u.None? then EngineStep(next, w, false)
      else
        var q := Updated(p.value.(cols := cols, rows := rows), u.value, true);
        EngineStep(next, Bumped(PutPane(w, paneId, q)), true)
  }

  // ---------- the session object ----------

  class SessionState {
    const id: string
    var version: u64
    var activeTabId: string
    var tabs: seq<Tab>

    constructor (w: Workspace)
      ensures State() == w
    {
      id := w.id;
      version := w.version;
      activeTabId := w.activeTabId;
      tabs := w.tabs;
    }

    function State(): Workspace
      reads this
    {
      Workspace(id, version, activeTabId, tabs)
    }

    // The state after an operation that either produced `next` or was rejected.
    twostate predicate Became(next: Option<Workspace>, changed: bool)
      reads this
    {
      changed == next.Some? && State() == if changed then next.value else old(State())
    }

    method AddTab(tabId: string, title: string, paneId: string, host: Host) returns (changed: bool)
      modifies this
      ensures Became(old(TabAdded(State(), tabId, title, paneId, host)), changed)
    {
      if tabId == "" || paneId == "" || TabIndex(tabs, tabId).Some? || FindIn(Roots(tabs), paneId).Some? {
        return false;
      }
      var active := TabIndex(tabs, activeTabId);
      if active.None? {
        return false;
      }
      var root := tabs[active.value].root;
      tabs := tabs + [Tab(tabId, title, paneId, NewPane(paneId, host, root.cols, root.rows))];
      version := SatInc(version);
      changed := true;
    }

    method SwitchTab(tabId: string) returns (changed: bool)
      modifies this
      ensures Became(old(TabSwitched(State(), tabId)), changed)
    {
      var index := TabIndex(tabs, tabId);
      if index.None? || FindIn([tabs[index.value].root], tabs[index.value].activePaneId).None? || activeTabId == tabId {
        return false;
      }
      activeTabId := tabId;
      version := SatInc(version);
      changed := true;
    }

    method CloseTab(tabId: string) returns (changed: bool)
      modifies this
      ensures Became(old(TabClosed(State(), tabId)), changed)
    {
      var index := TabIndex(tabs, tabId);
      if |tabs| <= 1 || index.None? {
        return false;
      }
      tabs := tabs[..index.value] + tabs[index.value + 1..];
      if activeTabId == tabId {
        activeTabId := tabs[Min(index.value, |tabs| - 1)].id;
      }
      version := SatInc(version);
      changed := true;
    }

    method FocusPane(paneId: string) returns (changed: bool)
      modifies this
      ensures Became(old(PaneFocused(State(), paneId)), changed)
    {
      var index := TabIndex(tabs, activeTabId);
      if index.None? || FindIn([tabs[index.value].root], paneId).None? || tabs[index.value].activePaneId == paneId {
        return false;
      }
      tabs := tabs[index.value := tabs[index.value].(activePaneId := paneId)];
      version := SatInc(version);
      changed := true;
    }

    method SplitPane(r: Request) returns (changed: bool)
      modifies this
      ensures Became(old(PaneSplit(State(), r)), changed)
    {
      if r.axis == NoSplit || r.newId == "" || FindIn(Roots(tabs), r.newId).Some? {
        return false;
      }
      var index := TabIndex(tabs, activeTabId);
      if index.None? {
        return false;
      }
      var split, root := SplitPaneNode(tabs[index.value].root, r);
      if !split {
        return false;
      }
      tabs := tabs[index.value := tabs[index.value].(root := root, activePaneId := r.newId)];
      version := SatInc(version);
      changed := true;
    }

    method PutPaneNode(paneId: string, q: Pane)
      modifies this`tabs
      ensures State() == old(PutPane(State(), paneId, q))
    {
      tabs := WithRoots(tabs, ReplaceFirst(Roots(tabs), paneId, q));
    }

    method SetPaneResizePolicy(paneId: string, policy: ResizePolicy) returns (changed: bool)
      modifies this
      ensures Became(old(PolicySet(State(), paneId, policy)), changed)
    {
      var p := FindIn(Roots(tabs), paneId);
      if p.None? || p.value.policy == policy {
        return false;
      }
      PutPaneNode(paneId, p.value.(policy := policy));
      version := SatInc(version);
      changed := true;
    }

    method ApplyPaneOutput<E>(k: Engine<E>, e: E, paneId: string, bytes: seq<byte>) returns (next: E, changed: bool)
      modifies this
      ensures EngineStep(next, State(), changed) == old(OutputApplied(k, e, State(), paneId, bytes))
    {
      var p := FindIn(Roots(tabs), paneId);
      if p.None? {
        return e, false;
      }
      var step := k.output(e, p.value, bytes);
      next := step.0;
      if step.1.None? {
        return next, false;
      }
      var q;
      q, changed := ApplyTerminalUpdate(p.value, step.1.value, false);
      PutPaneNode(paneId, q);
    }

    method CommitPaneResize<E>(k: Engine<E>, e: E, paneId: string, cols: u32, rows: u32)
      returns (next: E, changed: bool)
      modifies this
      ensures EngineStep(next, State(), changed) == old(ResizeCommitted(k, e, State(), paneId, cols, rows))
    {
      var p := FindIn(Roots(tabs), paneId);
      if p.None? || (p.value.cols == cols && p.value.rows == rows) {
        return e, false;
      }
      var step := k.resize(e, p.value, cols, rows);
      next := step.0;
      if step.1.None? {
        return next, false;
      }
      var q, _ := ApplyTerminalUpdate(p.value.(cols := cols, rows := rows), step.1.value, true);
      PutPaneNode(paneId, q);
      version := SatInc(version);
      changed := true;
    }
  }

  // ---------- what the operations do ----------

  // The first tab of the id is at `i`.
  predicate FirstTab(tabs: seq<Tab>, id: string, i: nat) {
    i < |tabs| && tabs[i].id == id && forall j | 0 <= j < i :: tabs[j].id != id
  }

  lemma {:induction false} TabIndexIsFirst(tabs: seq<Tab>, id: string)
    ensures match TabIndex(tabs, id)
            case Some(i) => FirstTab(tabs, id, i)
            case None => forall j | 0 <= j < |tabs| :: tabs[j].id != id
  {
    if tabs != [] && tabs[0].id != id {
      TabIndexIsFirst(tabs[1..], id);
      forall j | 1 <= j < |tabs| ensures tabs[j] == tabs[1..][j - 1] {
      }
    }
  }

  // A new state of the workspace whose tabs and active tab may differ.
  predicate NextVersion(w: Workspace, v: Workspace) {
    v.id == w.id && v.version == if w.version < U64_MAX then w.version + 1 else w.version
  }

  predicate Named(w: Workspace, id: string) {
    FirstNamed(Nodes(Roots(w.tabs)), id).Some?
  }

  /** A tab is added exactly under names not in use, at the end, with one new pane of the active tab's size; the
      active tab stays active. */
  lemma AddTabDoes(w: Workspace, tabId: string, title: string, paneId: string, host: Host, active: nat)
    requires FirstTab(w.tabs, w.activeTabId, active)
    ensures TabAdded(w, tabId, title, paneId, host).Some?
            <==> tabId != "" && paneId != "" && !Named(w, paneId)
                 && forall i | 0 <= i < |w.tabs| :: w.tabs[i].id != tabId
    ensures TabAdded(w, tabId, title, paneId, host).Some? ==>
              var v := TabAdded(w, tabId, title, paneId, host).value; var last := |w.tabs|;
              && NextVersion(w, v) && v.activeTabId == w.activeTabId && |v.tabs| == last + 1 && v.tabs[..last] == w.tabs
              && v.tabs[last].id == tabId && v.tabs[last].title == title && v.tabs[last].activePaneId == paneId
              && StartsAs(v.tabs[last].root, paneId, host)
              && v.tabs[last].root.cols == w.tabs[active].root.cols
              && v.tabs[last].root.rows == w.tabs[active].root.rows
  {
    TabIndexIsFirst(w.tabs, w.activeTabId);
    TabIndexIsFirst(w.tabs, tabId);
    FindIsFirst(Roots(w.tabs), paneId);
    NewPaneStarts(paneId, host, w.tabs[active].root.cols, w.tabs[active].root.rows);
  }

  /** Switching works exactly to another tab whose active pane exists, and changes only which tab is active. */
  lemma SwitchTabDoes(w: Workspace, tabId: string, i: nat)
    requires FirstTab(w.tabs, tabId, i)
    ensures TabSwitched(w, tabId).Some?
            <==> tabId != w.activeTabId && FirstNamed(Nodes([w.tabs[i].root]), w.tabs[i].activePaneId).Some?
    ensures TabSwitched(w, tabId).Some? ==>
              var v := TabSwitched(w, tabId).value;
              NextVersion(w, v) && v.activeTabId == tabId && v.tabs == w.tabs
  {
    TabIndexIsFirst(w.tabs, tabId);
    FindIsFirst([w.tabs[i].root], w.tabs[i].activePaneId);
  }

  /** Any tab but the only one can be closed. When it was the active one, the tab that follows it becomes active, or
      the one before when it was the last. */
  lemma CloseTabDoes(w: Workspace, tabId: string, i: nat)
    requires FirstTab(w.tabs, tabId, i)
    ensures TabClosed(w, tabId).Some? <==> |w.tabs| >= 2
    ensures TabClosed(w, tabId).Some? ==>
              var v := TabClosed(w, tabId).value;
              && NextVersion(w, v) && |v.tabs| == |w.tabs| - 1
              && (forall j | 0 <= j < i :: v.tabs[j] == w.tabs[j])
              && (forall j | i <= j < |v.tabs| :: v.tabs[j] == w.tabs[j + 1])
              && v.activeTabId == if w.activeTabId != tabId then w.activeTabId
                                  else if i + 1 < |w.tabs| then w.tabs[i + 1].id else w.tabs[i - 1].id
  {
    TabIndexIsFirst(w.tabs, tabId);
  }

  /** Focusing works exactly for another pane of the active tab, and changes only that tab's active pane. */
  lemma FocusPaneDoes(w: Workspace, paneId: string, i: nat)
    requires FirstTab(w.tabs, w.activeTabId, i)
    ensures PaneFocused(w, paneId).Some?
            <==> paneId != w.tabs[i].activePaneId && FirstNamed(Nodes([w.tabs[i].root]), paneId).Some?
    ensures PaneFocused(w, paneId).Some? ==>
              var v := PaneFocused(w, paneId).value;
              && NextVersion(w, v) && v.activeTabId == w.activeTabId && |v.tabs| == |w.tabs|
              && (forall j | 0 <= j < |w.tabs| && j != i :: v.tabs[j] == w.tabs[j])
              && v.tabs[i] == w.tabs[i].(activePaneId := paneId)
  {
    TabIndexIsFirst(w.tabs, w.activeTabId);
    FindIsFirst([w.tabs[i].root], paneId);
  }

  /** Splitting works in the active tab only and under a new name; where it stands, the leaf becomes its two halves,
      and the new pane becomes the tab's active pane. */
  lemma SplitPaneDoes(w: Workspace, r: Request, i: nat) returns (k: nat)
    requires FirstTab(w.tabs, w.activeTabId, i) && PaneSplit(w, r).Some?
    ensures r.axis != NoSplit && r.newId != "" && !Named(w, r.newId)
    ensures var v := PaneSplit(w, r).value;
            && NextVersion(w, v) && v.activeTabId == w.activeTabId && |v.tabs| == |w.tabs|
            && (forall j | 0 <= j < |w.tabs| && j != i :: v.tabs[j] == w.tabs[j])
            && v.tabs[i].id == w.tabs[i].id && v.tabs[i].title == w.tabs[i].title
            && v.tabs[i].activePaneId == r.newId
            && SplitsLeaf(LeavesOf(w.tabs[i].root), LeavesOf(v.tabs[i].root), k, r)
  {
    TabIndexIsFirst(w.tabs, w.activeTabId);
    FindIsFirst(Roots(w.tabs), r.newId);
    k := SplitOneLeaves(w.tabs[i].root, r);
  }

  /** Under a new name, with the target no branch's name, it works exactly when a leaf of the target's name in the
      active tab is two cells long along the axis. */
  lemma SplitPaneWorks(w: Workspace, r: Request, i: nat)
    requires FirstTab(w.tabs, w.activeTabId, i) && r.newId != "" && !Named(w, r.newId)
    requires NoBranchNamed([w.tabs[i].root], r.target)
    ensures PaneSplit(w, r).Some?
            <==> exists l :: l in LeavesOf(w.tabs[i].root) && l.id == r.target
                             && ((r.axis == Horizontal && l.rows >= 2) || (r.axis == Vertical && l.cols >= 2))
  {
    TabIndexIsFirst(w.tabs, w.activeTabId);
    FindIsFirst(Roots(w.tabs), r.newId);
    var root := w.tabs[i].root;
    SplitSucceeds([root], r);
    assert [root][1..] == [] && Leaves([root]) == LeavesOf(root);
    assert SplitIn([root], r).Some? <==> SplitOne(root, r).Some?;
    LeavesHaveNoChildren([root]);
  }

  /** A policy is set exactly when the pane is found with another one, and only the policy of that pane changes. */
  lemma SetPolicyDoes(w: Workspace, paneId: string, policy: ResizePolicy)
    ensures PolicySet(w, paneId, policy).Some?
            <==> var p := FirstNamed(Nodes(Roots(w.tabs)), paneId); p.Some? && p.value.policy != policy
    ensures PolicySet(w, paneId, policy).Some? ==>
              var v := PolicySet(w, paneId, policy).value;
              var p := FirstNamed(Nodes(Roots(w.tabs)), paneId).value;
              && NextVersion(w, v) && v.activeTabId == w.activeTabId && |v.tabs| == |w.tabs|
              && FirstNamed(Nodes(Roots(v.tabs)), paneId) == Some(p.(policy := policy))
              && (forall j | 0 <= j < |w.tabs| :: v.tabs[j].(root := w.tabs[j].root) == w.tabs[j])
  {
    FindIsFirst(Roots(w.tabs), paneId);
    if PolicySet(w, paneId, policy).Some? {
      var v := PolicySet(w, paneId, policy).value;
      var q := FindPane(w, paneId).value.(policy := policy);
      FindIsFirst(Roots(v.tabs), paneId);
      ReplaceKeepsFound(Roots(w.tabs), paneId, q, paneId);
      assert Roots(v.tabs) == ReplaceFirst(Roots(w.tabs), paneId, q);
    }
  }

  // ---------- the workspace invariant ----------

  function TabIds(tabs: seq<Tab>): seq<string> {
    seq(|tabs|, i requires 0 <= i < |tabs| => tabs[i].id)
  }

  ghost predicate Good(w: Workspace) {
    && Distinct(TabIds(w.tabs)) && TabIndex(w.tabs, w.activeTabId).Some?
    && (forall i | 0 <= i < |w.tabs| :: HasActivePane(w.tabs[i]))
    && Binary(Roots(w.tabs)) && Distinct(LeafIds(Roots(w.tabs)))
  }

  lemma AddKeepsGood(w: Workspace, tabId: string, title: string, paneId: string, host: Host)
    requires Good(w) && TabAdded(w, tabId, title, paneId, host).Some?
    ensures Good(TabAdded(w, tabId, title, paneId, host).value)
  {
    var v := TabAdded(w, tabId, title, paneId, host).value;
    var root := v.tabs[|w.tabs|].root;
    assert Roots(v.tabs) == Roots(w.tabs) + [root];
    LeavesJoin(Roots(w.tabs), [root]);
    assert Leaves([root]) == [root];
    UnknownIsNoLeaf(Roots(w.tabs), paneId);
    var ids := LeafIds(Roots(w.tabs));
    assert LeafIds(Roots(v.tabs)) == ids + [paneId];
    assert FindIn([root], paneId).Some?;
    assert TabIds(v.tabs) == TabIds(w.tabs) + [tabId];
    IndexAppend(w.tabs, v.tabs[|w.tabs|], w.activeTabId);
  }

  lemma {:induction false} IndexAppend(tabs: seq<Tab>, t: Tab, id: string)
    requires TabIndex(tabs, id).Some?
    ensures TabIndex(tabs + [t], id).Some?
  {
    var i := TabIndex(tabs, id).value;
    assert (tabs + [t])[i].id == id;
  }

  lemma {:induction false} CloseKeepsDistinct(ids: seq<string>, a: nat, b: nat)
    requires a <= b <= |ids| && Distinct(ids)
    ensures Distinct(ids[..a] + ids[b..])
  {
    var cut := ids[..a] + ids[b..];
    forall i, j | 0 <= i < j < |cut| ensures cut[i] != cut[j] {
      assert cut[i] == ids[if i < a then i else i - a + b];
      assert cut[j] == ids[if j < a then j else j - a + b];
    }
  }

  lemma CloseKeepsLeafIds(roots: seq<Pane>, i: nat)
    requires i < |roots| && Distinct(LeafIds(roots))
    ensures Distinct(LeafIds(roots[..i] + roots[i + 1..]))
  {
    var before, here, after := Leaves(roots[..i]), LeavesOf(roots[i]), Leaves(roots[i + 1..]);
    LeavesAround(roots, i);
    LeavesJoin(roots[..i], roots[i + 1..]);
    IdsJoin(before + here, after);
    IdsJoin(before, here);
    IdsJoin(before, after);
    CutIds(Ids(before), Ids(here), Ids(after));
  }

  lemma CutIds(a: seq<string>, b: seq<string>, c: seq<string>)
    requires Distinct(a + b + c)
    ensures Distinct(a + c)
  {
    var all := a + b + c;
    CloseKeepsDistinct(all, |a|, |a| + |b|);
    assert all[..|a|] == a && all[|a| + |b|..] == c;
  }

  lemma CloseKeepsTabs(w: Workspace, tabId: string)
    requires Distinct(TabIds(w.tabs)) && TabIndex(w.tabs, w.activeTabId).Some? && TabClosed(w, tabId).Some?
    ensures var v := TabClosed(w, tabId).value;
            Distinct(TabIds(v.tabs)) && TabIndex(v.tabs, v.activeTabId).Some?
  {
    var v := TabClosed(w, tabId).value;
    var i := TabIndex(w.tabs, tabId).value;
    assert TabIds(v.tabs) == TabIds(w.tabs)[..i] + TabIds(w.tabs)[i + 1..];
    CloseKeepsDistinct(TabIds(w.tabs), i, i + 1);
    if w.activeTabId != tabId {
      var j := TabIndex(w.tabs, w.activeTabId).value;
      assert v.tabs[if j < i then j else j - 1].id == w.activeTabId;
    }
  }

  lemma CloseKeepsGood(w: Workspace, tabId: string)
    requires Good(w) && TabClosed(w, tabId).Some?
    ensures Good(TabClosed(w, tabId).value)
  {
    var v := TabClosed(w, tabId).value;
    var i := TabIndex(w.tabs, tabId).value;
    var roots := Roots(w.tabs);
    assert Roots(v.tabs) == roots[..i] + roots[i + 1..];
    CloseKeepsLeafIds(roots, i);
    CloseKeepsTabs(w, tabId);
  }

  // Replacing one tab by one with the same id.
  lemma PutTab(tabs: seq<Tab>, i: nat, t: Tab)
    requires i < |tabs| && t.id == tabs[i].id
    ensures TabIds(tabs[i := t]) == TabIds(tabs)
    ensures Roots(tabs[i := t]) == Roots(tabs)[i := t.root]
    ensures forall id :: TabIndex(tabs, id).Some? ==> TabIndex(tabs[i := t], id).Some?
  {
    forall id | TabIndex(tabs, id).Some? ensures TabIndex(tabs[i := t], id).Some? {
      var j := TabIndex(tabs, id).value;
      assert tabs[i := t][j].id == id;
    }
  }

  lemma FocusKeepsGood(w: Workspace, paneId: string)
    requires Good(w) && PaneFocused(w, paneId).Some?
    ensures Good(PaneFocused(w, paneId).value)
  {
    var i := TabIndex(w.tabs, w.activeTabId).value;
    PutTab(w.tabs, i, w.tabs[i].(activePaneId := paneId));
    assert Roots(w.tabs)[i := w.tabs[i].root] == Roots(w.tabs);
  }

  lemma SplitKeepsGood(w: Workspace, r: Request)
    requires Good(w) && PaneSplit(w, r).Some?
    ensures Good(PaneSplit(w, r).value)
  {
    var i := TabIndex(w.tabs, w.activeTabId).value;
    var root := SplitOne(w.tabs[i].root, r).value;
    PutTab(w.tabs, i, w.tabs[i].(root := root, activePaneId := r.newId));
    SplitMakesNew(w.tabs[i].root, r);
    assert Roots(w.tabs)[i] == w.tabs[i].root;
    SplitKeepsBinary(w.tabs[i].root, r);
    var roots := Roots(w.tabs);
    var k := SplitInForest(roots, i, r);
    UnknownIsNoLeaf(roots, r.newId);
    SplitKeepsDistinct(Leaves(roots), Leaves(roots[i := root]), k, r);
  }

  lemma PutKeepsGood(w: Workspace, id: string, q: Pane)
    requires Good(w) && FindPane(w, id).Some? && SamePlace(FindPane(w, id).value, q)
    ensures Good(PutPane(w, id, q))
  {
    hide LeafIds, Leaves, BinaryTree, Distinct;
    var v := PutPane(w, id, q);
    var roots, after := Roots(w.tabs), ReplaceFirst(Roots(w.tabs), id, q);
    assert Roots(v.tabs) == after && TabIds(v.tabs) == TabIds(w.tabs);
    ReplaceKeepsBinary(roots, id, q);
    ReplaceKeepsLeafIds(roots, id, q);
    assert v.tabs[TabIndex(w.tabs, w.activeTabId).value].id == w.activeTabId;
    var k := ReplaceInTree(roots, id, q);
    forall i | 0 <= i < |v.tabs| ensures HasActivePane(v.tabs[i]) {
      if i == k {
        ReplaceKeepsFound([roots[k]], id, q, w.tabs[k].activePaneId);
        assert [after[k]] == ReplaceFirst([roots[k]], id, q);
      } else {
        assert v.tabs[i] == w.tabs[i];
      }
    }
  }
}
