/** The two halves joined: session events change the pane tree, and for the clients each event is a short run
    of daemon actions on the leaves. So what is proved of delivery holds of whole sessions. */
module EndToEnd {
  import opened Types
  import opened PaneUpdate
  import opened Mirror
  import opened Sync
  import opened Delivery
  import opened Tree
  import opened Session
  import opened Core

  // No frame carries the resize policy, so the clients' side ignores it.
  function Plain(p: Pane): Pane {
    p.(policy := Fixed)
  }

  /** The daemon's panes are exactly the leaves. */
  ghost predicate Tracks(panes: map<string, Pane>, leaves: seq<Pane>) {
    && (forall l | l in leaves :: l.id in panes && panes[l.id] == Plain(l))
    && forall id | id in panes :: Carried(id, leaves)
  }

  ghost predicate Carried(id: string, leaves: seq<Pane>) {
    exists l :: l in leaves && l.id == id
  }

  function AllLeaves(w: Workspace): seq<Pane> {
    Leaves(Roots(w.tabs))
  }

  // The pane an event names, if it is a leaf.
  function LeafNamed(w: Workspace, id: string): Option<Pane> {
    var p := FindPane(w, id);
    if p.Some? && p.value.children == [] then p else None
  }

  // ---------- events as daemon actions ----------

  function OutputActions<E>(k: Engine<E>, m: Machine<E>, id: string, bytes: seq<byte>): seq<Action> {
    var p := LeafNamed(m.workspace, id);
    if p.None? then []
    else
      var u := k.output(EngineOf(k, m.engines, id), p.value, bytes).1;
      if u.None? then [] else [Output(id, u.value)]
  }

  function ResizeActions<E>(k: Engine<E>, m: Machine<E>, id: string, cols: u32, rows: u32): seq<Action> {
    var p := LeafNamed(m.workspace, id);
    if p.None? || (p.value.cols == cols && p.value.rows == rows) then []
    else
      var u := k.resize(EngineOf(k, m.engines, id), p.value, cols, rows).1;
      if u.None? then [] else [Resize(id, cols, rows, u.value)]
  }

  function Closings(ids: seq<string>): seq<Action> {
    seq(|ids|, i requires 0 <= i < |ids| => Close(ids[i]))
  }

  function AddActions(w: Workspace, paneId: string, host: Host): seq<Action> {
    var active := TabIndex(w.tabs, w.activeTabId);
    if active.None? then []
    else
      var root := w.tabs[active.value].root;
      [Create(paneId, host, root.cols, root.rows)]
  }

  function SplitActions(w: Workspace, r: Request): seq<Action> {
    var p := SplitTarget(w, r);
    if p.None? then []
    else
      var s := SplitChildSizes(p.value.cols, p.value.rows, r.axis);
      if s.None? then []
      else [Shrink(r.target, s.value.cols1, s.value.rows1), Create(r.newId, r.host, s.value.cols2, s.value.rows2)]
  }

  // The leaf that carries the name.
  function LeafWithId(leaves: seq<Pane>, id: string): Option<Pane> {
    if leaves == [] then None else if leaves[0].id == id then Some(leaves[0]) else LeafWithId(leaves[1..], id)
  }

  function SplitTarget(w: Workspace, r: Request): Option<Pane> {
    LeafWithId(AllLeaves(w), r.target)
  }

  /** What an event does to the panes clients see. */
  function Actions<E>(k: Engine<E>, m: Machine<E>, e: Event): seq<Action> {
    var w := m.workspace;
    match e
    case PaneOutput(id, bytes) => OutputActions(k, m, id, bytes)
    case CommitPaneResize(id, cols, rows) => ResizeActions(k, m, id, cols, rows)
    case AddTab(tabId, title, paneId, host) =>
      if TabAdded(w, tabId, title, paneId, host).None? then [] else AddActions(w, paneId, host)
    case CloseTab(tabId) =>
      if TabClosed(w, tabId).None? then []
      else Closings(Ids(LeavesOf(w.tabs[TabIndex(w.tabs, tabId).value].root)))
    case SplitPane(r) => if PaneSplit(w, r).None? then [] else SplitActions(w, r)
    case _ => []
  }

  // ---------- one event ----------

  lemma ReplacedMembers(leaves: seq<Pane>, i: nat, q: Pane, l: Pane)
    requires Distinct(Ids(leaves)) && i < |leaves| && q.id == leaves[i].id
    ensures l in leaves[i := q] <==> l == q || (l in leaves && l.id != q.id)
  {
    if l in leaves[i := q] && l != q {
      var j :| 0 <= j < |leaves| && leaves[i := q][j] == l;
      assert Ids(leaves)[i] != Ids(leaves)[j];
    }
    if l in leaves && l.id != q.id {
      var j :| 0 <= j < |leaves| && leaves[j] == l;
      assert leaves[i := q][j] == l;
    }
    assert leaves[i := q][i] == q;
  }

  lemma ReplaceTracks(panes: map<string, Pane>, leaves: seq<Pane>, i: nat, q: Pane)
    requires Tracks(panes, leaves) && Distinct(Ids(leaves)) && i < |leaves| && q.id == leaves[i].id
    ensures Tracks(panes[q.id := Plain(q)], leaves[i := q])
  {
    hide Plain;
    var after := leaves[i := q];
    forall l | l in after
      ensures l.id in panes[q.id := Plain(q)] && panes[q.id := Plain(q)][l.id] == Plain(l)
    {
      ReplacedMembers(leaves, i, q, l);
    }
    forall id | id in panes[q.id := Plain(q)] ensures Carried(id, after) {
      ReplacedMembers(leaves, i, q, q);
      if id != q.id {
        var l :| l in leaves && l.id == id;
        ReplacedMembers(leaves, i, q, l);
      }
    }
  }

  lemma AppendTracks(panes: map<string, Pane>, leaves: seq<Pane>, q: Pane)
    requires Tracks(panes, leaves) && q.id !in Ids(leaves)
    ensures Tracks(panes[q.id := Plain(q)], leaves + [q])
  {
    hide Plain;
    forall l | l in leaves ensures l.id != q.id {
      var j :| 0 <= j < |leaves| && leaves[j] == l;
      assert Ids(leaves)[j] in Ids(leaves);
    }
    forall id | id in panes[q.id := Plain(q)] ensures Carried(id, leaves + [q]) {
      if id == q.id {
        assert q in leaves + [q];
      } else {
        var l :| l in leaves && l.id == id;
        assert l in leaves + [q];
      }
    }
  }

  lemma {:induction false} ReplaceBranch(ps: seq<Pane>, id: string, q: Pane)
    requires FindIn(ps, id).Some? && FindIn(ps, id).value.children != [] && SamePlace(FindIn(ps, id).value, q)
    ensures Leaves(ReplaceFirst(ps, id, q)) == Leaves(ps)
    decreases ps
  {
    var qs := ReplaceFirst(ps, id, q);
    if ps[0].id == id {
      assert qs[1..] == ps[1..];
    } else if FindIn(ps[0].children, id).Some? {
      ReplaceBranch(ps[0].children, id, q);
      assert qs[1..] == ps[1..];
    } else {
      ReplaceBranch(ps[1..], id, q);
      assert qs[1..] == ReplaceFirst(ps[1..], id, q);
    }
  }

  // A node's update in place, seen from the leaves.
  lemma PutTracks(panes: map<string, Pane>, w: Workspace, id: string, q: Pane)
    requires Good(w) && Tracks(panes, AllLeaves(w))
    requires FindPane(w, id).Some? && SamePlace(FindPane(w, id).value, q)
    ensures Tracks(if LeafNamed(w, id).Some? then panes[id := Plain(q)] else panes, AllLeaves(PutPane(w, id, q)))
    ensures LeafNamed(w, id).Some? ==> id in panes && panes[id] == Plain(FindPane(w, id).value)
  {
    hide Leaves, ReplaceFirst, Plain, Binary;
    var roots := Roots(w.tabs);
    assert Roots(PutPane(w, id, q).tabs) == ReplaceFirst(roots, id, q);
    FoundHasId(roots, id);
    if FindPane(w, id).value.children == [] {
      var i := ReplaceLeaf(roots, id, q);
      ReplaceTracks(panes, Leaves(roots), i, q);
    } else {
      ReplaceBranch(roots, id, q);
    }
  }

  lemma {:induction false} FoundHasId(ps: seq<Pane>, id: string)
    requires FindIn(ps, id).Some?
    ensures FindIn(ps, id).value.id == id
    decreases ps
  {
    if ps[0].id != id {
      if FindIn(ps[0].children, id).Some? {
        FoundHasId(ps[0].children, id);
      } else {
        FoundHasId(ps[1..], id);
      }
    }
  }

  lemma PlainUpdate(p: Pane, u: Update, force: bool)
    ensures Updated(Plain(p), u, force) == Plain(Updated(p, u, force))
  {
  }

  lemma OneAction(s: State, cap: nat, a: Action)
    requires PanesSized(s.daemon) && Enabled(s, a)
    ensures IsRun(s, cap, [a]) && After(s, cap, [a]) == Do(s, cap, a)
  {
    hide Enabled, Do;
    assert [a][1..] == [];
  }

  lemma SameIsRun(s: State, cap: nat, run: seq<Action>)
    requires IsRun(s, cap, run) && |run| == 1
    ensures PanesSized(s.daemon) && Enabled(s, run[0]) && After(s, cap, run) == Do(s, cap, run[0])
  {
    hide Enabled, Do, PanesSized;
    assert run[1..] == [];
  }

  ghost predicate Follows(s: State, t: State, w: Workspace) {
    Tracks(t.daemon.panes, AllLeaves(w)) && t.link == s.link
  }

  lemma OutputFollows<E>(k: Engine<E>, m: Machine<E>, id: string, bytes: seq<byte>, s: State, cap: nat)
    requires Good(m.workspace) && Tracks(s.daemon.panes, AllLeaves(m.workspace))
    requires IsRun(s, cap, OutputActions(k, m, id, bytes))
    ensures Follows(s, After(s, cap, OutputActions(k, m, id, bytes)),
                    OutputApplied(k, EngineOf(k, m.engines, id), m.workspace, id, bytes).workspace)
  {
    hide Good, Updated, Plain, StaleAfter, ViewOf;
    var w := m.workspace;
    var p := FindPane(w, id);
    if p.Some? {
      var u := k.output(EngineOf(k, m.engines, id), p.value, bytes).1;
      if u.Some? {
        var q := Updated(p.value, u.value, false);
        UpdateKeepsPlace(p.value, u.value, false);
        PutTracks(s.daemon.panes, w, id, q);
        if p.value.children == [] {
          FoundHasId(Roots(w.tabs), id);
          PlainUpdate(p.value, u.value, false);
          SameIsRun(s, cap, OutputActions(k, m, id, bytes));
          PlainKeepsId(q);
        }
      }
    }
  }

  /** A view shows what an engine reported: its title, directory, cursor, modes and colours, and its lines as far
      as there are rows. */
  predicate ViewShowsUpdate(v: View, rows: nat, u: Update) {
    && v.title == u.title && v.cwd == u.cwd && v.surface == u.surface && v.cursor == Some(u.cursor)
    && v.modes == u.modes && v.colors == u.colors
    && |v.screen.lines| == rows
    && forall i | 0 <= i < rows :: v.screen.lines[i] == if i < |u.screen.lines| then u.screen.lines[i] else ""
  }

  lemma UpdateIsViewed(p: Pane, u: Update)
    ensures var q := Updated(p, u, false);
            Sized(q.screen, |q.screen.lines|) && ViewShowsUpdate(ViewOf(q), p.rows, u)
  {
    hide ViewOf, TakesRows, FirstRows, Coherent;
    var q := Updated(p, u, false);
    UpdateIsShown(p, u, false);
    ScreenAfterUpdate(p, u);
    NormalizeCoherent(u.screen);
    ViewShowsPane(q, 0);
    forall i | 0 <= i < p.rows
      ensures ViewOf(q).screen.lines[i] == if i < |u.screen.lines| then u.screen.lines[i] else ""
    {
      ViewShowsPane(q, i);
    }
  }

  /** Once the engine answers an output, the pane, and so every client's view of it, shows what it reported. */
  lemma OutputIsShown<E>(k: Engine<E>, m: Machine<E>, i: u64, id: string, bytes: seq<byte>, u: Update)
    requires FindPane(m.workspace, id).Some?
    requires k.output(EngineOf(k, m.engines, id), FindPane(m.workspace, id).value, bytes).1 == Some(u)
    ensures var p := FindPane(m.workspace, id).value;
            var found := FindPane(Apply(k, m, i, PaneOutput(id, bytes)).machine.workspace, id);
            && found.Some? && ShowsUpdate(p, u, found.value) && KeepsPlace(p, found.value)
            && Sized(found.value.screen, |found.value.screen.lines|)
            && ViewShowsUpdate(ViewOf(found.value), p.rows, u)
  {
    hide FindIn, ReplaceFirst, ViewOf, ShowsUpdate, Updated, ViewShowsUpdate;
    var p := FindPane(m.workspace, id).value;
    UpdateKeepsPlace(p, u, false);
    FoundAfterPut(m.workspace, id, Updated(p, u, false));
    UpdateIsShown(p, u, false);
    UpdateIsViewed(p, u);
  }

  /** A committed resize that takes effect gives the pane exactly the committed size and the engine's content, and
      asks for a full refresh. */
  lemma ResizeIsShown<E>(k: Engine<E>, m: Machine<E>, i: u64, id: string, cols: u32, rows: u32, u: Update)
    requires FindPane(m.workspace, id).Some?
    requires var p := FindPane(m.workspace, id).value; !(p.cols == cols && p.rows == rows)
    requires k.resize(EngineOf(k, m.engines, id), FindPane(m.workspace, id).value, cols, rows).1 == Some(u)
    ensures var p := FindPane(m.workspace, id).value;
            var found := FindPane(Apply(k, m, i, CommitPaneResize(id, cols, rows)).machine.workspace, id);
            && found.Some? && found.value.cols == cols && found.value.rows == rows
            && ShowsUpdate(p, u, found.value) && KeepsPlace(p.(cols := cols, rows := rows), found.value)
            && found.value.patchKind == FullRefreshRequired
            && found.value.surfaceVersion == SatInc(p.surfaceVersion)
  {
    hide FindIn, ReplaceFirst, TakesRows, FirstRows;
    var p := FindPane(m.workspace, id).value;
    var resized := p.(cols := cols, rows := rows);
    UpdateKeepsPlace(resized, u, true);
    FoundAfterPut(m.workspace, id, Updated(resized, u, true));
    UpdateIsShown(resized, u, true);
  }

  lemma PlainKeepsId(p: Pane)
    ensures Plain(p).id == p.id && Plain(p).screen == p.screen && Plain(p).cols == p.cols && Plain(p).rows == p.rows
    ensures forall c: u32, r: u32 :: Plain(p).(cols := c, rows := r) == Plain(p.(cols := c, rows := r))
  {
  }

  lemma UpdateKeepsPlace(p: Pane, u: Update, force: bool)
    ensures SamePlace(p, Updated(p, u, force))
  {
  }

  lemma ResizeFollows<E>(k: Engine<E>, m: Machine<E>, id: string, cols: u32, rows: u32, s: State, cap: nat)
    requires Good(m.workspace) && Tracks(s.daemon.panes, AllLeaves(m.workspace))
    requires IsRun(s, cap, ResizeActions(k, m, id, cols, rows))
    ensures Follows(s, After(s, cap, ResizeActions(k, m, id, cols, rows)),
                    ResizeCommitted(k, EngineOf(k, m.engines, id), m.workspace, id, cols, rows).workspace)
  {
    hide Good, Updated, Plain, StaleAfter, ViewOf, Tracks, IsRun, After;
    var w := m.workspace;
    NoActions(s, cap);
    var p := FindPane(w, id);
    if p.Some? && !(p.value.cols == cols && p.value.rows == rows) {
      var u := k.resize(EngineOf(k, m.engines, id), p.value, cols, rows).1;
      if u.Some? {
        var resized := p.value.(cols := cols, rows := rows);
        var q := Updated(resized, u.value, true);
        UpdateKeepsPlace(resized, u.value, true);
        PutTracks(s.daemon.panes, w, id, q);
        if p.value.children == [] {
          FoundHasId(Roots(w.tabs), id);
          PlainUpdate(resized, u.value, true);
          SameIsRun(s, cap, ResizeActions(k, m, id, cols, rows));
          PlainKeepsId(p.value);
          PlainKeepsId(q);
        }
      }
    }
  }

  lemma AddFollows(w: Workspace, tabId: string, title: string, paneId: string, host: Host, s: State, cap: nat)
    requires Tracks(s.daemon.panes, AllLeaves(w)) && TabAdded(w, tabId, title, paneId, host).Some?
    requires IsRun(s, cap, AddActions(w, paneId, host))
    ensures Follows(s, After(s, cap, AddActions(w, paneId, host)), TabAdded(w, tabId, title, paneId, host).value)
  {
    hide ViewOf, Tracks, Ids;
    var v := TabAdded(w, tabId, title, paneId, host).value;
    var pane := v.tabs[|w.tabs|].root;
    assert Roots(v.tabs) == Roots(w.tabs) + [pane];
    LeavesJoin(Roots(w.tabs), [pane]);
    assert Leaves([pane]) == [pane];
    UnknownIsNoLeaf(Roots(w.tabs), paneId);
    AppendTracks(s.daemon.panes, AllLeaves(w), pane);
    SameIsRun(s, cap, AddActions(w, paneId, host));
  }

  // ---------- splits ----------

  lemma {:induction false} LeafFound(leaves: seq<Pane>, i: nat)
    requires i < |leaves| && Distinct(Ids(leaves))
    ensures LeafWithId(leaves, leaves[i].id) == Some(leaves[i])
  {
    if i > 0 {
      assert Ids(leaves)[0] != Ids(leaves)[i];
      assert Distinct(Ids(leaves[1..])) by {
        forall a, b | 0 <= a < b < |leaves[1..]| ensures Ids(leaves[1..])[a] != Ids(leaves[1..])[b] {
          assert Ids(leaves)[a + 1] != Ids(leaves)[b + 1];
        }
      }
      LeafFound(leaves[1..], i - 1);
    }
  }

  lemma SplitTracks(panes: map<string, Pane>, before: seq<Pane>, after: seq<Pane>, i: nat, r: Request)
    requires Tracks(panes, before) && Distinct(Ids(before)) && r.newId !in Ids(before)
    requires SplitsLeaf(before, after, i, r)
    ensures var h := Halves(before[i], r);
            Tracks(panes[h[0].id := Plain(h[0])][h[1].id := Plain(h[1])], after)
  {
    hide Plain, Shrunk, NewPane, SplitChildSizes;
    var h := Halves(before[i], r);
    HalvesIds(before[i], r);
    ReplaceTracks(panes, before, i, h[0]);
    var mid := before[i := h[0]];
    assert Ids(mid) == Ids(before);
    AppendTracks(panes[h[0].id := Plain(h[0])], mid, h[1]);
    assert mid == before[..i] + [h[0]] + before[i + 1..] && h == [h[0]] + [h[1]];
    SameMembersTrack(panes[h[0].id := Plain(h[0])][h[1].id := Plain(h[1])], mid + [h[1]], after);
  }

  lemma HalvesIds(p: Pane, r: Request)
    requires Splittable(p, r.axis)
    ensures var h := Halves(p, r); h[0].id == p.id && h[1].id == r.newId
  {
  }

  lemma UnknownIsNoPane(panes: map<string, Pane>, leaves: seq<Pane>, id: string)
    requires Tracks(panes, leaves) && id !in Ids(leaves)
    ensures id !in panes
  {
    hide Plain, Ids;
    if id in panes {
      var l :| l in leaves && l.id == id;
      MemberId(leaves, l);
      assert false;
    }
  }

  // The order of the leaves does not matter.
  lemma SameMembersTrack(panes: map<string, Pane>, leaves: seq<Pane>, moved: seq<Pane>)
    requires Tracks(panes, leaves) && forall l :: l in moved <==> l in leaves
    ensures Tracks(panes, moved)
  {
    hide Plain;
    forall id | id in panes ensures Carried(id, moved) {
      var l :| l in leaves && l.id == id;
      assert l in moved;
    }
  }

  lemma TwoActions(s: State, cap: nat, run: seq<Action>)
    requires IsRun(s, cap, run) && |run| == 2
    ensures PanesSized(s.daemon) && Enabled(s, run[0])
    ensures PanesSized(Do(s, cap, run[0]).daemon) && Enabled(Do(s, cap, run[0]), run[1])
    ensures After(s, cap, run) == Do(Do(s, cap, run[0]), cap, run[1])
  {
    hide Enabled, Do, PanesSized;
    SameIsRun(Do(s, cap, run[0]), cap, run[1..]);
  }

  lemma PlainShrunk(p: Pane, cols: u32, rows: u32)
    ensures Shrunk(Plain(p), cols, rows) == Plain(Shrunk(p, cols, rows)) && Plain(p).screen == p.screen
    ensures Shrunk(p, cols, rows).id == p.id
  {
  }

  lemma PlainNew(id: string, host: Host, cols: u32, rows: u32)
    ensures Plain(NewPane(id, host, cols, rows)) == NewPane(id, host, cols, rows)
    ensures NewPane(id, host, cols, rows).id == id
  {
  }

  lemma SplitFollows(w: Workspace, r: Request, s: State, cap: nat)
    requires Good(w) && Tracks(s.daemon.panes, AllLeaves(w)) && PaneSplit(w, r).Some?
    requires IsRun(s, cap, SplitActions(w, r))
    ensures Follows(s, After(s, cap, SplitActions(w, r)), PaneSplit(w, r).value)
  {
    hide Plain, Shrunk, NewPane, ViewOf, SplitOne, Leaves, FindIn, Binary, Carried, Ids, IsRun, After;
    var v := PaneSplit(w, r).value;
    var t := TabIndex(w.tabs, w.activeTabId).value;
    var root := SplitOne(w.tabs[t].root, r).value;
    assert Roots(v.tabs) == Roots(w.tabs)[t := root];
    var i := SplitInForest(Roots(w.tabs), t, r);
    var leaves := AllLeaves(w);
    LeafFound(leaves, i);
    UnknownIsNoLeaf(Roots(w.tabs), r.newId);
    SplitTracks(s.daemon.panes, leaves, AllLeaves(v), i, r);
    var z := SplitChildSizes(leaves[i].cols, leaves[i].rows, r.axis).value;
    TwoActions(s, cap, SplitActions(w, r));
    PlainShrunk(leaves[i], z.cols1, z.rows1);
    PlainNew(r.newId, r.host, z.cols2, z.rows2);
    PlainKeepsId(Shrunk(leaves[i], z.cols1, z.rows1));
  }

  // ---------- closing a tab ----------

  lemma {:induction false} ClosingsRun(s: State, cap: nat, ids: seq<string>)
    requires IsRun(s, cap, Closings(ids))
    ensures var t := After(s, cap, Closings(ids));
            && t.link == s.link && forall id :: id in t.daemon.panes <==> id in s.daemon.panes && id !in ids
    ensures forall id | id in After(s, cap, Closings(ids)).daemon.panes ::
              After(s, cap, Closings(ids)).daemon.panes[id] == s.daemon.panes[id]
    decreases |ids|
  {
    hide PanesSized;
    if ids != [] {
      assert Closings(ids)[0] == Close(ids[0]);
      assert Closings(ids)[1..] == Closings(ids[1..]);
      assert forall id :: id in ids <==> id == ids[0] || id in ids[1..];
      ClosingsRun(Do(s, cap, Close(ids[0])), cap, ids[1..]);
    }
  }

  // A leaf outside the middle part shares no id with it.
  lemma BothSidesApart(a: seq<Pane>, b: seq<Pane>, c: seq<Pane>, l: Pane)
    requires Distinct(Ids(a + b + c)) && l in a + c
    ensures l.id !in Ids(b)
  {
    var all := a + b + c;
    var i :| 0 <= i < |a + c| && (a + c)[i] == l;
    var j := if i < |a| then i else i + |b|;
    assert all[j] == l && Ids(all)[j] == l.id;
    forall x | 0 <= x < |b| ensures Ids(b)[x] != l.id {
      assert all[|a| + x] == b[x] && Ids(all)[|a| + x] == Ids(b)[x];
    }
  }

  lemma RemoveTracks(panes: map<string, Pane>, rest: map<string, Pane>, a: seq<Pane>, b: seq<Pane>, c: seq<Pane>)
    requires Tracks(panes, a + b + c) && Distinct(Ids(a + b + c))
    requires forall id :: id in rest <==> id in panes && id !in Ids(b)
    requires forall id | id in rest :: rest[id] == panes[id]
    ensures Tracks(rest, a + c)
  {
    hide Plain, Ids, Distinct;
    forall l | l in a + c ensures l.id in rest && rest[l.id] == Plain(l) {
      BothSidesApart(a, b, c, l);
      assert l in a + b + c;
    }
    forall id | id in rest ensures Carried(id, a + c) {
      var l :| l in a + b + c && l.id == id;
      if l in b {
        MemberId(b, l);
        assert false;
      }
      assert l in a + c;
    }
  }

  lemma MemberId(leaves: seq<Pane>, l: Pane)
    requires l in leaves
    ensures l.id in Ids(leaves)
  {
    var i :| 0 <= i < |leaves| && leaves[i] == l;
    assert Ids(leaves)[i] == l.id;
  }

  lemma CloseFollows(w: Workspace, tabId: string, s: State, cap: nat)
    requires Good(w) && Tracks(s.daemon.panes, AllLeaves(w)) && TabClosed(w, tabId).Some?
    requires var root := w.tabs[TabIndex(w.tabs, tabId).value].root; IsRun(s, cap, Closings(Ids(LeavesOf(root))))
    ensures var root := w.tabs[TabIndex(w.tabs, tabId).value].root;
            Follows(s, After(s, cap, Closings(Ids(LeavesOf(root)))), TabClosed(w, tabId).value)
  {
    hide Leaves, LeavesOf, Tracks, Binary, IsRun, After, Ids;
    var v := TabClosed(w, tabId).value;
    var i := TabIndex(w.tabs, tabId).value;
    var roots := Roots(w.tabs);
    assert Roots(v.tabs) == roots[..i] + roots[i + 1..];
    LeavesAround(roots, i);
    LeavesJoin(roots[..i], roots[i + 1..]);
    var ids := Ids(LeavesOf(roots[i]));
    ClosingsRun(s, cap, ids);
    RemoveTracks(s.daemon.panes, After(s, cap, Closings(ids)).daemon.panes,
                 Leaves(roots[..i]), LeavesOf(roots[i]), Leaves(roots[i + 1..]));
  }

  // ---------- every event ----------

  lemma QuietEventFollows(w: Workspace, e: Event, panes: map<string, Pane>)
    requires Good(w) && Tracks(panes, AllLeaves(w)) && Structural(w, e).Some?
    requires e.SwitchTab? || e.FocusPane? || e.SetPaneResizePolicy?
    ensures Tracks(panes, AllLeaves(Structural(w, e).value))
  {
    hide Leaves, Tracks;
    if e.SetPaneResizePolicy? {
      var p := FindPane(w, e.paneId).value;
      PutTracks(panes, w, e.paneId, p.(policy := e.policy));
      if LeafNamed(w, e.paneId).Some? {
        assert panes[e.paneId := Plain(p)] == panes;
      }
    } else {
      assert Roots(Structural(w, e).value.tabs) == Roots(w.tabs);
    }
  }

  /** Each event is, for the clients, the run of its actions: afterwards the daemon's panes are again exactly
      the leaves. */
  lemma EventFollows<E>(k: Engine<E>, m: Machine<E>, i: u64, e: Event, s: State, cap: nat)
    requires Good(m.workspace) && Tracks(s.daemon.panes, AllLeaves(m.workspace))
    requires IsRun(s, cap, Actions(k, m, e))
    ensures Follows(s, After(s, cap, Actions(k, m, e)), Apply(k, m, i, e).machine.workspace)
  {
    hide Good, Tracks, IsRun, After, OutputActions, ResizeActions, AddActions, SplitActions, Closings;
    hide OutputApplied, ResizeCommitted, TabAdded, TabClosed, PaneSplit;
    NoActions(s, cap);
    match e
    case PaneOutput(id, bytes) => OutputFollows(k, m, id, bytes, s, cap);
    case CommitPaneResize(id, cols, rows) => ResizeFollows(k, m, id, cols, rows, s, cap);
    case _ =>
      if Structural(m.workspace, e).Some? {
        StructuralFollows(k, m, e, s, cap);
      } else {
        RejectedDoesNothing(k, m, e);
      }
  }

  lemma NoActions(s: State, cap: nat)
    ensures IsRun(s, cap, []) && After(s, cap, []) == s
  {
  }

  lemma RejectedDoesNothing<E>(k: Engine<E>, m: Machine<E>, e: Event)
    requires Structural(m.workspace, e).None? && !e.PaneOutput? && !e.CommitPaneResize?
    ensures Actions(k, m, e) == []
  {
    hide TabAdded, TabClosed, PaneSplit;
  }

  lemma StructuralFollows<E>(k: Engine<E>, m: Machine<E>, e: Event, s: State, cap: nat)
    requires Good(m.workspace) && Tracks(s.daemon.panes, AllLeaves(m.workspace))
    requires IsRun(s, cap, Actions(k, m, e)) && Structural(m.workspace, e).Some?
    ensures Follows(s, After(s, cap, Actions(k, m, e)), Structural(m.workspace, e).value)
  {
    hide Good, Tracks, AddActions, SplitActions, Closings, TabAdded, TabClosed, PaneSplit, IsRun, After;
    var w := m.workspace;
    if e.AddTab? {
      AddFollows(w, e.tabId, e.title, e.paneId, e.host, s, cap);
    } else if e.CloseTab? {
      CloseFollows(w, e.tabId, s, cap);
    } else if e.SplitPane? {
      SplitFollows(w, e.request, s, cap);
    } else if e.SwitchTab? || e.FocusPane? || e.SetPaneResizePolicy? {
      NoActions(s, cap);
      QuietEventFollows(w, e, s.daemon.panes);
    }
  }
}
