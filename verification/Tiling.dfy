/** Splits tile: the children of every branch partition its rectangle, and no node ever changes size. */
module Tiling {
  import opened Types
  import opened PaneUpdate
  import opened Tree

  // The two children partition the branch's rectangle along its axis.
  predicate Partition(axis: SplitAxis, p: Pane, first: Pane, second: Pane) {
    match axis
    case NoSplit => false
    case Horizontal => first.cols == second.cols == p.cols && first.rows + second.rows == p.rows
    case Vertical => first.rows == second.rows == p.rows && first.cols + second.cols == p.cols
  }

  ghost predicate Tiled(p: Pane) {
    if p.children == [] then p.cols >= 1 && p.rows >= 1
    else
      && |p.children| == 2 && Partition(p.axis, p, p.children[0], p.children[1])
      && Tiled(p.children[0]) && Tiled(p.children[1])
  }

  /** `q` is `p` after splits of its leaves: every node of `p` is still there with its size. */
  ghost predicate Refines(p: Pane, q: Pane) {
    && p.cols == q.cols && p.rows == q.rows
    && (p.children != [] ==>
          && |p.children| == |q.children|
          && forall i | 0 <= i < |p.children| :: Refines(p.children[i], q.children[i]))
  }

  function Area(leaves: seq<Pane>): nat {
    if leaves == [] then 0 else leaves[0].cols * leaves[0].rows + Area(leaves[1..])
  }

  lemma {:induction false} AreaJoins(a: seq<Pane>, b: seq<Pane>)
    ensures Area(a + b) == Area(a) + Area(b)
  {
    if a == [] {
      assert a + b == b;
    } else {
      AreaJoins(a[1..], b);
      assert (a + b)[1..] == a[1..] + b;
    }
  }

  lemma TwoTrees(a: Pane, b: Pane)
    ensures Leaves([a, b]) == LeavesOf(a) + LeavesOf(b)
  {
    assert [a, b][1..] == [b] && [b][1..] == [];
    assert Leaves([b]) == LeavesOf(b) + [];
  }

  lemma PartitionArea(axis: SplitAxis, p: Pane, first: Pane, second: Pane)
    requires Partition(axis, p, first, second)
    ensures first.cols * first.rows + second.cols * second.rows == p.cols * p.rows
  {
    match axis
    case Horizontal => assert p.cols * first.rows + p.cols * second.rows == p.cols * (first.rows + second.rows);
    case Vertical => assert first.cols * p.rows + second.cols * p.rows == (first.cols + second.cols) * p.rows;
  }

  lemma OneCell(cols: nat, rows: nat)
    requires cols >= 1 && rows >= 1
    ensures cols * rows >= 1
  {
  }

  /** The leaves of a tiled tree cover its rectangle exactly, so there are at most as many as cells. */
  lemma {:induction false} LeavesCoverRoot(p: Pane)
    requires Tiled(p)
    ensures Area(LeavesOf(p)) == p.cols * p.rows
    ensures 1 <= |LeavesOf(p)| <= p.cols * p.rows
    ensures p.cols >= 1 && p.rows >= 1
    decreases p
  {
    if p.children == [] {
      assert [p][1..] == [];
      OneCell(p.cols, p.rows);
    } else {
      var first, second := p.children[0], p.children[1];
      LeavesCoverRoot(first);
      LeavesCoverRoot(second);
      BranchLeaves(p, first, second);
      PartitionArea(p.axis, p, first, second);
    }
  }

  lemma BranchLeaves(p: Pane, first: Pane, second: Pane)
    requires p.children == [first, second]
    ensures LeavesOf(p) == LeavesOf(first) + LeavesOf(second)
    ensures Area(LeavesOf(p)) == Area(LeavesOf(first)) + Area(LeavesOf(second))
  {
    TwoTrees(first, second);
    AreaJoins(LeavesOf(first), LeavesOf(second));
  }

  lemma {:induction false} LeavesAtLeastOneCell(p: Pane, l: Pane)
    requires Tiled(p) && l in LeavesOf(p)
    ensures l.cols >= 1 && l.rows >= 1
    decreases p
  {
    if p.children != [] {
      assert p.children == [p.children[0], p.children[1]];
      TwoTrees(p.children[0], p.children[1]);
      if l in LeavesOf(p.children[0]) {
        LeavesAtLeastOneCell(p.children[0], l);
      } else {
        LeavesAtLeastOneCell(p.children[1], l);
      }
    }
  }

  lemma {:induction false} RefinesSelf(p: Pane)
    ensures Refines(p, p)
    decreases p
  {
    forall i | 0 <= i < |p.children| ensures Refines(p.children[i], p.children[i]) {
      RefinesSelf(p.children[i]);
    }
  }

  lemma {:induction false} RefinesTrans(p: Pane, q: Pane, r: Pane)
    requires Refines(p, q) && Refines(q, r)
    ensures Refines(p, r)
    decreases p
  {
    if p.children != [] {
      forall i | 0 <= i < |p.children| ensures Refines(p.children[i], r.children[i]) {
        RefinesTrans(p.children[i], q.children[i], r.children[i]);
      }
    }
  }

  // ---------- splits ----------

  lemma BranchTiles(p: Pane, r: Request)
    requires Tiled(p) && Splittable(p, r.axis)
    ensures Tiled(Branch(p, r)) && Refines(p, Branch(p, r))
  {
    var h := Halves(p, r);
    assert Tiled(h[0]) && Tiled(h[1]);
    assert Partition(r.axis, Branch(p, r), h[0], h[1]);
  }

  /** A split keeps the tiling, and every node's size. */
  lemma {:induction false} SplitTiles(p: Pane, r: Request)
    requires Tiled(p) && SplitOne(p, r).Some?
    ensures Tiled(SplitOne(p, r).value) && Refines(p, SplitOne(p, r).value)
    decreases p
  {
    if p.id == r.target {
      BranchTiles(p, r);
    } else {
      var q := SplitOne(p, r).value;
      var k := SplitChangesOneTree(p.children, r);
      SplitTiles(p.children[k], r);
      forall i | 0 <= i < |p.children| ensures Refines(p.children[i], q.children[i]) {
        RefinesSelf(p.children[i]);
      }
    }
  }

  // ---------- content updates ----------

  predicate SameFrame(p: Pane, q: Pane) {
    SamePlace(p, q) && p.axis == q.axis && p.cols == q.cols && p.rows == q.rows
  }

  // What a replacement that keeps a node's frame does to each tree of a forest.
  ghost predicate EachTiles(ps: seq<Pane>, qs: seq<Pane>) {
    |ps| == |qs| && forall i | 0 <= i < |ps| :: Refines(ps[i], qs[i]) && (Tiled(ps[i]) ==> Tiled(qs[i]))
  }

  lemma ChildrenTile(p: Pane, children: seq<Pane>)
    requires EachTiles(p.children, children)
    ensures Refines(p, p.(children := children)) && (Tiled(p) ==> Tiled(p.(children := children)))
  {
    assert p.children == [] ==> children == [];
  }

  lemma AllTile(ps: seq<Pane>)
    ensures EachTiles(ps, ps)
  {
    forall i | 0 <= i < |ps| ensures Refines(ps[i], ps[i]) {
      RefinesSelf(ps[i]);
    }
  }

  lemma FrameTiles(p: Pane, q: Pane)
    requires SameFrame(p, q)
    ensures Refines(p, q) && (Tiled(p) ==> Tiled(q))
  {
    AllTile(p.children);
  }

  lemma {:induction false} ReplaceTiles(ps: seq<Pane>, id: string, q: Pane)
    requires FindIn(ps, id).Some? && SameFrame(FindIn(ps, id).value, q)
    ensures EachTiles(ps, ReplaceFirst(ps, id, q))
    decreases ps
  {
    var qs := ReplaceFirst(ps, id, q);
    AllTile(ps);
    if ps[0].id == id {
      FrameTiles(ps[0], q);
    } else if FindIn(ps[0].children, id).Some? {
      ReplaceTiles(ps[0].children, id, q);
      ChildrenTile(ps[0], ReplaceFirst(ps[0].children, id, q));
    } else {
      ReplaceTiles(ps[1..], id, q);
      forall i | 0 <= i < |ps| ensures Refines(ps[i], qs[i]) && (Tiled(ps[i]) ==> Tiled(qs[i])) {
        if i > 0 {
          assert ps[i] == ps[1..][i - 1] && qs[i] == ReplaceFirst(ps[1..], id, q)[i - 1];
        }
      }
    }
  }
}
