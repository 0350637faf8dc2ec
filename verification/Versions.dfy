/** Versions as identities: over any life of a pane, whatever its engine returns, one version means one content. */
module Versions {
  import opened Types
  import opened PaneUpdate
  import opened Sync

  /** Everything that changes a live leaf. */
  datatype Change =
    | Output(update: Update)
    | Resize(cols: u32, rows: u32, update: Update)
    | Split(cols: u32, rows: u32)
    | Policy(policy: ResizePolicy)

  function Changed(p: Pane, c: Change): Pane {
    match c
    case Output(u) => Updated(p, u, false)
    case Resize(cols, rows, u) => Updated(p.(cols := cols, rows := rows), u, true)
    case Split(cols, rows) => Shrunk(p, cols, rows)
    case Policy(policy) => p.(policy := policy)
  }

  lemma ChangeKeepsRows(p: Pane, c: Change)
    requires RowsAgree(p)
    ensures RowsAgree(Changed(p, c)) && Changed(p, c).id == p.id
  {
    match c
    case Output(u) => UpdateKeepsRowsCoherent(p, u, false);
    case Resize(cols, rows, u) => UpdateKeepsRowsCoherent(p.(cols := cols, rows := rows), u, true);
    case _ =>
  }

  function Life(p: Pane, changes: seq<Change>): Pane
    decreases |changes|
  {
    if changes == [] then p else Life(Changed(p, changes[0]), changes[1..])
  }

  lemma LifeMore(p: Pane, changes: seq<Change>, c: Change)
    ensures Life(p, changes + [c]) == Changed(Life(p, changes), c)
    decreases |changes|
  {
    if changes == [] {
      assert [c][1..] == [];
    } else {
      LifeMore(Changed(p, changes[0]), changes[1..], c);
      assert (changes + [c])[1..] == changes[1..] + [c];
    }
  }

  lemma OneChange(p: Pane, c: Change)
    requires RowsAgree(p)
    ensures var q := Changed(p, c);
            && p.surfaceVersion <= q.surfaceVersion && p.scrollbackVersion <= q.scrollbackVersion
            && (q.surfaceVersion == p.surfaceVersion < U64_MAX ==> ViewOf(q) == ViewOf(p))
            && (q.scrollbackVersion == p.scrollbackVersion < U64_MAX ==> q.scrollback == p.scrollback)
  {
    match c
    case Output(u) =>
      var q := Updated(p, u, false);
      if q.surfaceVersion == p.surfaceVersion < U64_MAX {
        ShownRowsUnchanged(p.screen, p.rows);
        assert q.screen == Truncate(p.screen, p.rows);
      }
    case _ =>
  }

  /** Between any two moments of a live leaf the versions do not decrease; equal surface versions mean equal
      views, and equal scrollback versions mean equal scrollbacks (short of the saturated counter). */
  lemma {:induction false} VersionIdentifiesContent(p: Pane, changes: seq<Change>)
    requires RowsAgree(p)
    ensures var q := Life(p, changes);
            && RowsAgree(q)
            && p.surfaceVersion <= q.surfaceVersion && p.scrollbackVersion <= q.scrollbackVersion
            && (q.surfaceVersion == p.surfaceVersion < U64_MAX ==> ViewOf(q) == ViewOf(p))
            && (q.scrollbackVersion == p.scrollbackVersion < U64_MAX ==> q.scrollback == p.scrollback)
    decreases |changes|
  {
    if changes != [] {
      ChangeKeepsRows(p, changes[0]);
      OneChange(p, changes[0]);
      VersionIdentifiesContent(Changed(p, changes[0]), changes[1..]);
    }
  }
}
