/** The pane tree of a tab: finding a node, replacing it in place, listing leaves and splitting. Forests
    (`seq<Pane>`) are used throughout; a tree is a forest of one. */
module Tree {
  import opened Types
  import opened PaneUpdate

  // ---------- lookup ----------

  // `pane_node`: the first node with the id, a node before its children, children in order.
  function FindIn(ps: seq<Pane>, id: string): Option<Pane> {
    if ps == [] then None
    else if ps[0].id == id then Some(ps[0])
    else
      var inside := FindIn(ps[0].children, id);
      if inside.Some? then inside else FindIn(ps[1..], id)
  }

  // The forest after an update in place of the node `pane_node_mut` finds.
  function ReplaceFirst(ps: seq<Pane>, id: string, q: Pane): (qs: seq<Pane>)
    ensures |qs| == |ps|
  {
    if ps == [] then []
    else if ps[0].id == id then [q] + ps[1..]
    else if FindIn(ps[0].children, id).Some? then
      [ps[0].(children := ReplaceFirst(ps[0].children, id, q))] + ps[1..]
    else [ps[0]] + ReplaceFirst(ps[1..], id, q)
  }

  function LeavesOf(p: Pane): seq<Pane>
    decreases p
  {
    if p.children == [] then [p] else Leaves(p.children)
  }

  function Leaves(ps: seq<Pane>): seq<Pane>
    decreases ps
  {
    if ps == [] then [] else LeavesOf(ps[0]) + Leaves(ps[1..])
  }

  function Ids(ps: seq<Pane>): seq<string> {
    seq(|ps|, i requires 0 <= i < |ps| => ps[i].id)
  }

  function LeafIds(ps: seq<Pane>): seq<string> {
    Ids(Leaves(ps))
  }

  ghost predicate Distinct<T>(s: seq<T>) {
    forall i, j | 0 <= i < j < |s| :: s[i] != s[j]
  }

  // Every node is a leaf or has exactly two children.
  ghost predicate BinaryTree(p: Pane) {
    && (|p.children| == 0 || |p.children| == 2)
    && forall i | 0 <= i < |p.children| :: BinaryTree(p.children[i])
  }

  ghost predicate Binary(ps: seq<Pane>) {
    forall i | 0 <= i < |ps| :: BinaryTree(ps[i])
  }

  // No node with children has the id.
  ghost predicate NoBranchNamed(ps: seq<Pane>, id: string) {
    ps != [] ==>
      (ps[0].children != [] ==> ps[0].id != id) && NoBranchNamed(ps[0].children, id) && NoBranchNamed(ps[1..], id)
  }

  // ---------- the order of nodes ----------

  /** All nodes in document order: a node before its children, children in order. */
  function Nodes(ps: seq<Pane>): seq<Pane>
    decreases ps
  {
    if ps == [] then [] else [ps[0]] + Nodes(ps[0].children) + Nodes(ps[1..])
  }

  function FirstNamed(ps: seq<Pane>, id: string): Option<Pane> {
    if ps == [] then None else if ps[0].id == id then Some(ps[0]) else FirstNamed(ps[1..], id)
  }

  lemma {:induction false} FirstOfTwo(a: seq<Pane>, b: seq<Pane>, id: string)
    ensures FirstNamed(a + b, id) == if FirstNamed(a, id).Some? then FirstNamed(a, id) else FirstNamed(b, id)
  {
    if a == [] {
      assert a + b == b;
    } else {
      assert (a + b)[1..] == a[1..] + b;
      FirstOfTwo(a[1..], b, id);
    }
  }

  /** Lookup finds the first node of the name in document order. */
  lemma {:induction false} FindIsFirst(ps: seq<Pane>, id: string)
    ensures FindIn(ps, id) == FirstNamed(Nodes(ps), id)
    decreases ps
  {
    if ps != [] {
      FindIsFirst(ps[0].children, id);
      FindIsFirst(ps[1..], id);
      FirstOfTwo([ps[0]] + Nodes(ps[0].children), Nodes(ps[1..]), id);
      FirstOfTwo([ps[0]], Nodes(ps[0].children), id);
      assert [ps[0]][1..] == [];
    }
  }

  function Childless(ps: seq<Pane>): seq<Pane> {
    if ps == [] then [] else (if ps[0].children == [] then [ps[0]] else []) + Childless(ps[1..])
  }

  lemma {:induction false} ChildlessJoins(a: seq<Pane>, b: seq<Pane>)
    ensures Childless(a + b) == Childless(a) + Childless(b)
  {
    if a == [] {
      assert a + b == b;
    } else {
      assert (a + b)[1..] == a[1..] + b;
      ChildlessJoins(a[1..], b);
    }
  }

  /** The leaves are the nodes without children, in document order. */
  lemma {:induction false} LeavesAreChildless(ps: seq<Pane>)
    ensures Leaves(ps) == Childless(Nodes(ps))
    decreases ps
  {
    if ps != [] {
      LeavesAreChildless(ps[0].children);
      LeavesAreChildless(ps[1..]);
      ChildlessJoins([ps[0]] + Nodes(ps[0].children), Nodes(ps[1..]));
      ChildlessJoins([ps[0]], Nodes(ps[0].children));
      assert [ps[0]][1..] == [];
      assert Nodes([]) == [];
    }
  }

  lemma {:induction false} LeavesHaveNoChildren(ps: seq<Pane>)
    ensures forall l | l in Leaves(ps) :: l.children == []
    decreases ps
  {
    if ps != [] {
      LeavesHaveNoChildren(ps[0].children);
      LeavesHaveNoChildren(ps[1..]);
    }
  }

  method CollectLeafPaneIds(pane: Pane, before: seq<string>) returns (ids: seq<string>)
    ensures ids == before + Ids(LeavesOf(pane))
    decreases pane
  {
    if pane.children == [] {
      return before + [pane.id];
    }
    ids := before;
    var i := 0;
    while i < |pane.children|
      invariant i <= |pane.children|
      invariant ids == before + LeafIds(pane.children[..i])
    {
      ids := CollectLeafPaneIds(pane.children[i], ids);
      LeavesJoin(pane.children[..i], [pane.children[i]]);
      assert Leaves([pane.children[i]]) == LeavesOf(pane.children[i]);
      IdsJoin(Leaves(pane.children[..i]), Leaves([pane.children[i]]));
      assert pane.children[..i + 1] == pane.children[..i] + [pane.children[i]];
      i := i + 1;
    }
    assert pane.children[..i] == pane.children;
  }

  // ---------- splitting ----------

  datatype Sizes = Sizes(cols1: u32, rows1: u32, cols2: u32, rows2: u32)

  function SplitChildSizes(cols: u32, rows: u32, axis: SplitAxis): (s: Option<Sizes>)
    ensures s.Some? ==> s.value.cols1 >= Min(cols, 1) && s.value.rows1 >= Min(rows, 1)
                        && s.value.cols2 >= Min(cols, 1) && s.value.rows2 >= Min(rows, 1)
    ensures s.Some? && axis == Horizontal ==>
              s.value.cols1 == s.value.cols2 == cols && s.value.rows1 + s.value.rows2 == rows
    ensures s.Some? && axis == Vertical ==>
              s.value.rows1 == s.value.rows2 == rows && s.value.cols1 + s.value.cols2 == cols
    ensures s.Some? ==> 0 <= s.value.rows2 - s.value.rows1 <= 1 || axis == Vertical
    ensures s.Some? ==> 0 <= s.value.cols2 - s.value.cols1 <= 1 || axis == Horizontal
    ensures s.None? <==> axis == NoSplit || (axis == Horizontal && rows < 2) || (axis == Vertical && cols < 2)
  {
    match axis
    case NoSplit => None
    case Horizontal => if rows >= 2 then Some(Sizes(cols, rows / 2, cols, rows - rows / 2)) else None
    case Vertical => if cols >= 2 then Some(Sizes(cols / 2, rows, cols - cols / 2, rows)) else None
  }

  function SatAdd32(a: u32, b: u32): u32 {
    Min(a + b, U32_MAX)
  }

  datatype Request = Request(target: string, axis: SplitAxis, newId: string, host: Host)

  function Splittable(p: Pane, axis: SplitAxis): bool {
    p.children == [] && SplitChildSizes(p.cols, p.rows, axis).Some?
  }

  // The two panes a leaf becomes.
  function Halves(p: Pane, r: Request): (h: seq<Pane>)
    requires Splittable(p, r.axis)
    ensures |h| == 2
  {
    var s := SplitChildSizes(p.cols, p.rows, r.axis).value;
    [Shrunk(p, s.cols1, s.rows1), NewPane(r.newId, r.host, s.cols2, s.rows2)]
  }

  // The node that takes the leaf's place.
  function Branch(p: Pane, r: Request): Pane
    requires Splittable(p, r.axis)
  {
    var s := SplitChildSizes(p.cols, p.rows, r.axis).value;
    p.(id := "split-" + p.id + "-" + r.newId, axis := r.axis, children := Halves(p, r),
       cols := if r.axis == Horizontal then Max(s.cols1, s.cols2) else SatAdd32(s.cols1, s.cols2),
       rows := if r.axis == Horizontal then SatAdd32(s.rows1, s.rows2) else Max(s.rows1, s.rows2),
       surfaceVersion := 0, patchKind := FullRefreshRequired, rowUpdates := [], paletteDiff := None)
  }

  // A node named like the target that cannot be split hides its subtree.
  function SplitOne(p: Pane, r: Request): Option<Pane>
    decreases p
  {
    if p.id == r.target then
      (if Splittable(p, r.axis) then Some(Branch(p, r)) else None)
    else
      var inside := SplitIn(p.children, r);
      if inside.Some? then Some(p.(children := inside.value)) else None
  }

  // The first tree of the forest that can be split.
  function SplitIn(ps: seq<Pane>, r: Request): Option<seq<Pane>>
    decreases ps
  {
    if ps == [] then None
    else
      var here := SplitOne(ps[0], r);
      if here.Some? then Some([here.value] + ps[1..])
      else
        var rest := SplitIn(ps[1..], r);
        if rest.Some? then Some([ps[0]] + rest.value) else None
  }

  // The leaf case: the pane becomes a branch over its shrunk self and a new pane.
  method SplitLeaf(pane: Pane, r: Request) returns (split: bool, p: Pane)
    requires pane.id == r.target
    ensures SplitOne(pane, r) == if split then Some(p) else None
    ensures !split ==> p == pane
  {
    p := pane;
    if pane.children != [] {
      return false, p;
    }
    var sizes := SplitChildSizes(pane.cols, pane.rows, r.axis);
    if sizes.None? {
      return false, p;
    }
    var s := sizes.value;
    var existing := Shrunk(pane, s.cols1, s.rows1);
    var created := NewPane(r.newId, r.host, s.cols2, s.rows2);
    p := p.(id := "split-" + r.target + "-" + r.newId, axis := r.axis, children := [existing, created]);
    p := p.(cols := SatAdd32(s.cols1, s.cols2), rows := Max(s.rows1, s.rows2));
    if r.axis == Horizontal {
      p := p.(cols := Max(s.cols1, s.cols2), rows := SatAdd32(s.rows1, s.rows2));
    }
    p := p.(surfaceVersion := 0, patchKind := FullRefreshRequired, rowUpdates := [], paletteDiff := None);
    split := true;
  }

  function Prefixed(before: seq<Pane>, rest: Option<seq<Pane>>): Option<seq<Pane>> {
    if rest.None? then None else Some(before + rest.value)
  }

  // The search moves on past child `i`.
  lemma NextChild(ps: seq<Pane>, i: nat, r: Request)
    requires i < |ps|
    ensures Prefixed(ps[..i], SplitIn(ps[i..], r))
            == if SplitOne(ps[i], r).Some? then Some(ps[i := SplitOne(ps[i], r).value])
               else Prefixed(ps[..i + 1], SplitIn(ps[i + 1..], r))
  {
    hide SplitOne;
    assert ps[i..][1..] == ps[i + 1..];
    if SplitOne(ps[i], r).Some? {
      assert ps[..i] + ([SplitOne(ps[i], r).value] + ps[i + 1..]) == ps[i := SplitOne(ps[i], r).value];
    } else if SplitIn(ps[i + 1..], r).Some? {
      assert ps[..i] + [ps[i]] == ps[..i + 1];
      Regroup(ps[..i], [ps[i]], SplitIn(ps[i + 1..], r).value);
    }
  }

  lemma WholeForest(ps: seq<Pane>, r: Request)
    ensures Prefixed(ps[..0], SplitIn(ps[0..], r)) == SplitIn(ps, r)
  {
    hide SplitIn;
    assert ps[0..] == ps;
    if SplitIn(ps, r).Some? {
      assert ps[..0] + SplitIn(ps, r).value == SplitIn(ps, r).value;
    }
  }

  method SplitPaneNode(pane: Pane, r: Request) returns (split: bool, p: Pane)
    ensures SplitOne(pane, r) == if split then Some(p) else None
    ensures !split ==> p == pane
    decreases pane
  {
    if pane.id == r.target {
      split, p := SplitLeaf(pane, r);
      return;
    }
    hide SplitIn, Branch, Splittable;
    p := pane;
    var i := 0;
    WholeForest(pane.children, r);
    while i < |pane.children|
      invariant i <= |pane.children| && p == pane
      invariant SplitIn(pane.children, r) == Prefixed(pane.children[..i], SplitIn(pane.children[i..], r))
    {
      var child;
      split, child := SplitPaneNode(pane.children[i], r);
      NextChild(pane.children, i, r);
      if split {
        p := p.(children := pane.children[i := child]);
        return true, p;
      }
      i := i + 1;
    }
    NothingLeft(pane.children, r);
    split := false;
  }

  lemma NothingLeft(ps: seq<Pane>, r: Request)
    ensures SplitIn(ps[|ps|..], r).None?
  {
  }

  // ---------- leaves under a split ----------

  lemma IdsJoin(a: seq<Pane>, b: seq<Pane>)
    ensures Ids(a + b) == Ids(a) + Ids(b)
  {
  }

  lemma {:induction false} CutLeaves(ps: seq<Pane>, k: nat)
    requires k <= |ps|
    ensures Leaves(ps) == Leaves(ps[..k]) + Leaves(ps[k..])
    decreases k
  {
    if k == 0 {
      assert ps[0..] == ps;
    } else {
      CutLeaves(ps[1..], k - 1);
      assert ps[1..][..k - 1] == ps[..k][1..] && ps[1..][k - 1..] == ps[k..];
      Regroup(LeavesOf(ps[0]), Leaves(ps[..k][1..]), Leaves(ps[k..]));
    }
  }

  lemma LeavesJoin(a: seq<Pane>, b: seq<Pane>)
    ensures Leaves(a + b) == Leaves(a) + Leaves(b)
  {
    CutLeaves(a + b, |a|);
    assert (a + b)[..|a|] == a && (a + b)[|a|..] == b;
  }

  // The leaves after leaf `i` was split.
  function LeavesSplitAt(leaves: seq<Pane>, i: nat, r: Request): seq<Pane>
    requires i < |leaves| && Splittable(leaves[i], r.axis)
  {
    leaves[..i] + Halves(leaves[i], r) + leaves[i + 1..]
  }

  ghost predicate SplitsLeaf(before: seq<Pane>, after: seq<Pane>, i: nat, r: Request) {
    && i < |before| && before[i].id == r.target && Splittable(before[i], r.axis)
    && after == LeavesSplitAt(before, i, r)
  }

  lemma SplitsInside(before: seq<Pane>, after: seq<Pane>, i: nat, r: Request, prefix: seq<Pane>, suffix: seq<Pane>)
    requires SplitsLeaf(before, after, i, r)
    ensures SplitsLeaf(prefix + before + suffix, prefix + after + suffix, |prefix| + i, r)
  {
    var all := prefix + before + suffix;
    assert all[|prefix| + i] == before[i];
    assert all[..|prefix| + i] == prefix + before[..i];
    assert all[|prefix| + i + 1..] == before[i + 1..] + suffix;
    assert prefix + after + suffix == LeavesSplitAt(all, |prefix| + i, r);
  }

  lemma PairLeaves(a: Pane, b: Pane)
    requires a.children == [] && b.children == []
    ensures Leaves([a, b]) == [a, b]
  {
    assert [a, b][1..] == [b] && [b][1..] == [];
    assert Leaves([b]) == [b];
  }

  lemma {:induction false} SplitNotEmpty(ps: seq<Pane>, r: Request)
    requires SplitIn(ps, r).Some?
    ensures |SplitIn(ps, r).value| == |ps| > 0
    decreases |ps|
  {
    if SplitOne(ps[0], r).None? {
      SplitNotEmpty(ps[1..], r);
    }
  }

  lemma {:induction false} SplitOneLeaves(p: Pane, r: Request) returns (i: nat)
    requires SplitOne(p, r).Some?
    ensures SplitsLeaf(LeavesOf(p), LeavesOf(SplitOne(p, r).value), i, r)
    decreases p
  {
    if p.id == r.target {
      var h := Halves(p, r);
      PairLeaves(h[0], h[1]);
      assert h == [h[0], h[1]] && LeavesOf(SplitOne(p, r).value) == h;
      i := 0;
    } else {
      i := SplitConservesLeaves(p.children, r);
      SplitNotEmpty(p.children, r);
    }
  }

  /** A successful split replaces one leaf named like the target by its two halves and touches no other leaf. */
  lemma {:induction false} SplitConservesLeaves(ps: seq<Pane>, r: Request) returns (i: nat)
    requires SplitIn(ps, r).Some?
    ensures SplitsLeaf(Leaves(ps), Leaves(SplitIn(ps, r).value), i, r)
    decreases ps
  {
    var qs := SplitIn(ps, r).value;
    var first, rest := LeavesOf(ps[0]), Leaves(ps[1..]);
    if SplitOne(ps[0], r).Some? {
      i := SplitOneLeaves(ps[0], r);
      var after := LeavesOf(qs[0]);
      assert qs[1..] == ps[1..];
      SplitsInside(first, after, i, r, [], rest);
      assert [] + first + rest == first + rest && [] + after + rest == after + rest;
    } else {
      i := SplitConservesLeaves(ps[1..], r);
      var after := Leaves(qs[1..]);
      assert qs[1..] == SplitIn(ps[1..], r).value;
      SplitsInside(rest, after, i, r, first, []);
      assert first + rest + [] == first + rest && first + after + [] == first + after;
      i := |first| + i;
    }
  }

  /** The same for a forest in which only tree `k` is searched. */
  lemma SplitInForest(ps: seq<Pane>, k: nat, r: Request) returns (i: nat)
    requires k < |ps| && SplitOne(ps[k], r).Some?
    ensures SplitsLeaf(Leaves(ps), Leaves(ps[k := SplitOne(ps[k], r).value]), i, r)
  {
    var q := SplitOne(ps[k], r).value;
    i := SplitOneLeaves(ps[k], r);
    SplitsInside(LeavesOf(ps[k]), LeavesOf(q), i, r, Leaves(ps[..k]), Leaves(ps[k + 1..]));
    LeavesAround(ps, k);
    LeavesAround(ps[k := q], k);
    assert ps[k := q][..k] == ps[..k] && ps[k := q][k + 1..] == ps[k + 1..];
    i := |Leaves(ps[..k])| + i;
  }

  lemma TailLeaves(ps: seq<Pane>, k: nat)
    requires k < |ps|
    ensures Leaves(ps[k..]) == LeavesOf(ps[k]) + Leaves(ps[k + 1..])
  {
    assert ps[k..][1..] == ps[k + 1..];
  }

  lemma LeavesAround(ps: seq<Pane>, k: nat)
    requires k < |ps|
    ensures Leaves(ps) == Leaves(ps[..k]) + LeavesOf(ps[k]) + Leaves(ps[k + 1..])
  {
    CutLeaves(ps, k);
    TailLeaves(ps, k);
    Regroup(Leaves(ps[..k]), LeavesOf(ps[k]), Leaves(ps[k + 1..]));
  }

  // The half that keeps the pane's content.
  predicate KeptHalf(p: Pane, q: Pane) {
    && q.id == p.id && q.screen == p.screen && q.scrollback == p.scrollback && q.cursor == p.cursor
    && q.modes == p.modes && q.title == p.title && q.cwd == p.cwd && q.colors == p.colors
    && q.styles == p.styles && q.surface == p.surface && q.policy == p.policy && q.children == p.children
    && q.scrollbackVersion == p.scrollbackVersion && q.surfaceVersion == SatInc(p.surfaceVersion)
    && q.patchKind == FullRefreshRequired && q.paletteDiff == None
    && |q.rowUpdates| == |p.screen.lines| && (forall i | 0 <= i < |q.rowUpdates| :: q.rowUpdates[i] == i)
    && q.host == p.host.(initialSize := Some((q.cols, q.rows)))
  }

  // A pane as every new pane starts.
  predicate StartsAs(n: Pane, id: string, host: Host) {
    && n.id == id && n.axis == NoSplit && n.children == [] && n.policy == Fixed
    && n.host == host.(id := id, initialSize := Some((n.cols, n.rows)))
    && n.surfaceVersion == 1 && n.scrollbackVersion == 1 && n.patchKind == ReplaceRows && n.rowUpdates == [0, 1]
    && n.title == "" && n.cwd == "" && n.surface == Main && n.cursor == Cursor(1, 0, true, Block, true)
    && n.modes == DEFAULT_MODES && n.colors == DEFAULT_COLORS && n.styles == [DEFAULT_STYLE] && n.paletteDiff == None
    && n.screen.lines == ["nmux " + id, "server-owned terminal state"]
    && n.scrollback.lines == ["booting nmux workspace", "nmux " + id, "server-owned terminal state"]
  }

  lemma NewPaneStarts(id: string, host: Host, cols: u32, rows: u32)
    ensures StartsAs(NewPane(id, host, cols, rows), id, host)
    ensures NewPane(id, host, cols, rows).cols == cols && NewPane(id, host, cols, rows).rows == rows
  {
    assert IndicesBelow(1) == [0] && IndicesBelow(2) == [0, 1];
  }

  /** The two leaves of a split, field by field: equal halves along the axis, the odd cell to the new one; the first
      keeps its content under its next version and has to be sent in full; the second is a new pane. */
  lemma SplitHalves(before: seq<Pane>, after: seq<Pane>, i: nat, r: Request)
    requires SplitsLeaf(before, after, i, r)
    ensures |after| == |before| + 1
    ensures var p, q, n := before[i], after[i], after[i + 1];
            && (r.axis == Horizontal ==>
                  q.cols == n.cols == p.cols && q.rows == p.rows / 2 && n.rows == p.rows - p.rows / 2)
            && (r.axis == Vertical ==>
                  q.rows == n.rows == p.rows && q.cols == p.cols / 2 && n.cols == p.cols - p.cols / 2)
            && r.axis != NoSplit && KeptHalf(p, q) && StartsAs(n, r.newId, r.host)
  {
    var s := SplitChildSizes(before[i].cols, before[i].rows, r.axis).value;
    NewPaneStarts(r.newId, r.host, s.cols2, s.rows2);
  }

  /** A leaf with the target's id can be split exactly when its axis is two cells long; the branch that takes its
      place has its size, and the two halves as its only leaves. */
  lemma BranchStandsInPlace(p: Pane, r: Request)
    requires p.id == r.target
    ensures SplitOne(p, r).Some?
            <==> p.children == [] && ((r.axis == Horizontal && p.rows >= 2) || (r.axis == Vertical && p.cols >= 2))
    ensures SplitOne(p, r).Some? ==>
              var b := SplitOne(p, r).value;
              && b.id == "split-" + p.id + "-" + r.newId && b.axis == r.axis && b.cols == p.cols && b.rows == p.rows
              && |b.children| == 2 && b.children[0].id == p.id && b.children[1].id == r.newId
              && LeavesOf(b) == b.children && b.surfaceVersion == 0
  {
    if Splittable(p, r.axis) {
      PairLeaves(Halves(p, r)[0], Halves(p, r)[1]);
    }
  }

  /** In terms of ids: the new id comes right after the target, everything else keeps its place. */
  lemma SplitInsertsId(before: seq<Pane>, after: seq<Pane>, i: nat, r: Request)
    requires SplitsLeaf(before, after, i, r)
    ensures Ids(before)[i] == r.target
    ensures Ids(after) == Ids(before)[..i + 1] + [r.newId] + Ids(before)[i + 1..]
  {
  }

  /** Unless a branch shadows the target, a split succeeds exactly when a leaf of that name is large enough. */
  lemma {:induction false} SplitSucceeds(ps: seq<Pane>, r: Request)
    requires NoBranchNamed(ps, r.target)
    ensures SplitIn(ps, r).Some? <==> exists l :: l in Leaves(ps) && l.id == r.target && Splittable(l, r.axis)
    decreases ps
  {
    if SplitIn(ps, r).Some? {
      var i := SplitConservesLeaves(ps, r);
      assert Leaves(ps)[i] in Leaves(ps);
    } else if ps != [] {
      SplitSucceeds(ps[0].children, r);
      SplitSucceeds(ps[1..], r);
    }
  }

  // ---------- ids ----------

  lemma {:induction false} LeafIsFound(ps: seq<Pane>, i: nat)
    requires i < |Leaves(ps)|
    ensures FindIn(ps, Leaves(ps)[i].id).Some?
    decreases ps
  {
    var first := LeavesOf(ps[0]);
    if i < |first| {
      if ps[0].children != [] {
        LeafIsFound(ps[0].children, i);
      }
    } else {
      assert Leaves(ps)[i] == Leaves(ps[1..])[i - |first|];
      LeafIsFound(ps[1..], i - |first|);
    }
  }

  lemma UnknownIsNoLeaf(ps: seq<Pane>, id: string)
    requires FindIn(ps, id).None?
    ensures id !in LeafIds(ps)
  {
    forall i | 0 <= i < |LeafIds(ps)| ensures LeafIds(ps)[i] != id {
      LeafIsFound(ps, i);
    }
  }

  /** A fresh id keeps leaf ids distinct. */
  lemma SplitKeepsDistinct(before: seq<Pane>, after: seq<Pane>, i: nat, r: Request)
    requires SplitsLeaf(before, after, i, r) && Distinct(Ids(before)) && r.newId !in Ids(before)
    ensures Distinct(Ids(after)) && r.newId in Ids(after)
  {
    SplitInsertsId(before, after, i, r);
    var ids, grown := Ids(before), Ids(after);
    assert grown[i + 1] == r.newId;
    forall a, b | 0 <= a < b < |grown| ensures grown[a] != grown[b] {
      assert a <= i ==> grown[a] == ids[a];
      assert a > i + 1 ==> grown[a] == ids[a - 1];
      assert b <= i ==> grown[b] == ids[b];
      assert b > i + 1 ==> grown[b] == ids[b - 1];
    }
  }

  lemma {:induction false} SplitChangesOneTree(ps: seq<Pane>, r: Request) returns (k: nat)
    requires SplitIn(ps, r).Some?
    ensures k < |ps| && SplitOne(ps[k], r).Some? && SplitIn(ps, r).value == ps[k := SplitOne(ps[k], r).value]
    decreases |ps|
  {
    if SplitOne(ps[0], r).Some? {
      k := 0;
    } else {
      k := SplitChangesOneTree(ps[1..], r);
      k := k + 1;
    }
  }

  lemma {:induction false} SplitKeepsBinary(p: Pane, r: Request)
    requires BinaryTree(p) && SplitOne(p, r).Some?
    ensures BinaryTree(SplitOne(p, r).value)
    decreases p
  {
    if p.id == r.target {
      var h := Halves(p, r);
      assert BinaryTree(h[0]) && BinaryTree(h[1]);
    } else {
      var k := SplitChangesOneTree(p.children, r);
      SplitKeepsBinary(p.children[k], r);
    }
  }

  lemma SplitMakesNew(p: Pane, r: Request)
    requires SplitOne(p, r).Some?
    ensures FindIn([SplitOne(p, r).value], r.newId).Some?
  {
    var i := SplitOneLeaves(p, r);
    var q := SplitOne(p, r).value;
    assert LeavesOf(q)[i + 1].id == r.newId;
    assert Leaves([q]) == LeavesOf(q) + [];
    LeafIsFound([q], i + 1);
  }

  // ---------- replacing a node's content ----------

  /** Same place in the tree: id and children. */
  predicate SamePlace(p: Pane, q: Pane) {
    p.id == q.id && p.children == q.children
  }

  lemma {:induction false} ReplaceKeepsBinary(ps: seq<Pane>, id: string, q: Pane)
    requires FindIn(ps, id).Some? && SamePlace(FindIn(ps, id).value, q)
    ensures |ReplaceFirst(ps, id, q)| == |ps| && (Binary(ps) ==> Binary(ReplaceFirst(ps, id, q)))
    decreases ps
  {
    var qs := ReplaceFirst(ps, id, q);
    if ps[0].id == id {
      assert Binary(ps) ==> BinaryTree(q);
    } else if FindIn(ps[0].children, id).Some? {
      ReplaceKeepsBinary(ps[0].children, id, q);
      assert Binary(ps) ==> Binary(ps[0].children) && BinaryTree(qs[0]);
    } else {
      ReplaceKeepsBinary(ps[1..], id, q);
      if Binary(ps) {
        assert Binary(ps[1..]);
        forall i | 0 <= i < |qs| ensures BinaryTree(qs[i]) {
          if i > 0 {
            assert qs[i] == ReplaceFirst(ps[1..], id, q)[i - 1];
          }
        }
      }
    }
  }

  lemma {:induction false} ReplaceKeepsLeafIds(ps: seq<Pane>, id: string, q: Pane)
    requires FindIn(ps, id).Some? && SamePlace(FindIn(ps, id).value, q)
    ensures LeafIds(ReplaceFirst(ps, id, q)) == LeafIds(ps)
    decreases ps
  {
    var qs := ReplaceFirst(ps, id, q);
    IdsJoin(LeavesOf(ps[0]), Leaves(ps[1..]));
    IdsJoin(LeavesOf(qs[0]), Leaves(qs[1..]));
    if ps[0].id == id {
      assert qs[1..] == ps[1..];
      assert Ids([q]) == Ids([ps[0]]);
    } else if FindIn(ps[0].children, id).Some? {
      ReplaceKeepsLeafIds(ps[0].children, id, q);
      ReplaceKeepsBinary(ps[0].children, id, q);
      assert qs[1..] == ps[1..];
    } else {
      ReplaceKeepsLeafIds(ps[1..], id, q);
      assert qs[1..] == ReplaceFirst(ps[1..], id, q);
    }
  }

  lemma {:induction false} ReplaceKeepsFound(ps: seq<Pane>, id: string, q: Pane, other: string)
    requires FindIn(ps, id).Some? && SamePlace(FindIn(ps, id).value, q)
    ensures var qs := ReplaceFirst(ps, id, q);
            && (FindIn(qs, other).Some? <==> FindIn(ps, other).Some?)
            && FindIn(qs, id) == Some(q)
    decreases ps
  {
    var qs := ReplaceFirst(ps, id, q);
    if ps[0].id == id {
      assert qs[1..] == ps[1..];
    } else if FindIn(ps[0].children, id).Some? {
      ReplaceKeepsFound(ps[0].children, id, q, other);
      assert qs[1..] == ps[1..];
    } else {
      ReplaceKeepsFound(ps[1..], id, q, other);
      assert qs[1..] == ReplaceFirst(ps[1..], id, q);
    }
  }

  // A replacement happens inside the first tree that holds the id.
  lemma {:induction false} ReplaceInTree(ps: seq<Pane>, id: string, q: Pane) returns (k: nat)
    requires FindIn(ps, id).Some?
    ensures k < |ps| && FindIn([ps[k]], id) == FindIn(ps, id)
    ensures ReplaceFirst(ps, id, q) == ps[k := ReplaceFirst([ps[k]], id, q)[0]]
    decreases |ps|
  {
    assert [ps[0]][1..] == [];
    if FindIn([ps[0]], id).Some? {
      k := 0;
    } else {
      k := ReplaceInTree(ps[1..], id, q);
      k := k + 1;
    }
  }

  // Which leaf a replacement changes, when the node found is a leaf.
  lemma {:induction false} ReplaceLeaf(ps: seq<Pane>, id: string, q: Pane) returns (i: nat)
    requires FindIn(ps, id).Some? && FindIn(ps, id).value.children == [] && SamePlace(FindIn(ps, id).value, q)
    ensures var before := Leaves(ps);
            && i < |before| && before[i] == FindIn(ps, id).value
            && Leaves(ReplaceFirst(ps, id, q)) == before[i := q]
    decreases ps
  {
    var qs := ReplaceFirst(ps, id, q);
    if ps[0].id == id {
      assert qs[1..] == ps[1..];
      i := 0;
    } else if FindIn(ps[0].children, id).Some? {
      i := ReplaceLeaf(ps[0].children, id, q);
      ReplaceKeepsBinary(ps[0].children, id, q);
      assert qs[1..] == ps[1..];
    } else {
      var j := ReplaceLeaf(ps[1..], id, q);
      assert qs[1..] == ReplaceFirst(ps[1..], id, q);
      i := |LeavesOf(ps[0])| + j;
    }
  }
}
