/** How the daemon folds a terminal engine's update into a pane: normalising row vectors, choosing
    the patch kind, the rows to resend, the palette diff and the version bump. */
module PaneUpdate {
  import opened Types

  datatype Host = Host(id: string, program: string, initialSize: Option<(u32, u32)>)

  datatype PaletteDiff = PaletteDiff(start: nat, colors: seq<u32>)

  datatype Pane = Pane(
    id: string, axis: SplitAxis, children: seq<Pane>, host: Host,
    surfaceVersion: u64, patchKind: PatchKind, rowUpdates: seq<nat>, scrollbackVersion: u64,
    cols: u32, rows: u32, policy: ResizePolicy, surface: SurfaceKind, cursor: Cursor, modes: Modes,
    title: string, cwd: string, colors: Colors, paletteDiff: Option<PaletteDiff>,
    styles: seq<Style>, screen: Rows, scrollback: Rows)

  /** What a terminal engine hands back; nothing about it is trusted. */
  datatype Update = Update(
    patchKind: PatchKind, surface: SurfaceKind, preserveScrollback: bool, cursor: Cursor, modes: Modes,
    title: string, cwd: string, colors: Colors, styles: seq<Style>, screen: Rows, scrollback: Rows)

  // ---------- row vectors ----------

  predicate RunsMatch(lines: seq<string>, runs: seq<seq<CellRun>>) {
    |runs| == |lines| && forall i | 0 <= i < |lines| :: RunText(runs[i]) == lines[i]
  }

  function RunsForLines(lines: seq<string>, runs: seq<seq<CellRun>>): seq<seq<CellRun>> {
    if RunsMatch(lines, runs) then runs
    else seq(|lines|, i requires 0 <= i < |lines| => [PlainRun(lines[i])])
  }

  function ForLines<T>(lines: seq<string>, values: seq<T>, plain: T): seq<T> {
    if |values| == |lines| then values else seq(|lines|, _ => plain)
  }

  /** The row vectors the daemon keeps for the vectors an engine returned. */
  function Normalize(r: Rows): (n: Rows)
    ensures |n.runs| == |n.prompts| == |n.dirty| == |n.kitty| == |n.lines|
  {
    Rows(r.lines, RunsForLines(r.lines, r.runs), ForLines(r.lines, r.prompts, NoPrompt),
         ForLines(r.lines, r.dirty, false), ForLines(r.lines, r.kitty, false))
  }

  ghost predicate Coherent(r: Rows) {
    && RunsMatch(r.lines, r.runs)
    && |r.prompts| == |r.dirty| == |r.kitty| == |r.lines|
  }

  // The row vectors of screen and scrollback agree.
  ghost predicate RowsAgree(p: Pane) {
    Coherent(p.screen) && Coherent(p.scrollback)
  }

  function Take<T>(s: seq<T>, n: nat): seq<T> {
    if |s| <= n then s else s[..n]
  }

  function Truncate(r: Rows, n: nat): Rows {
    Rows(Take(r.lines, n), Take(r.runs, n), Take(r.prompts, n), Take(r.dirty, n), Take(r.kitty, n))
  }

  function At<T>(s: seq<T>, i: nat): Option<T> {
    if i < |s| then Some(s[i]) else None
  }

  /** Row `i` has to be resent when `next` replaces `prev`. */
  predicate RowDiffers(prev: Rows, next: Rows, i: nat) {
    || |prev.lines| != |next.lines|
    || At(prev.lines, i) != At(next.lines, i)
    || At(prev.runs, i) != At(next.runs, i)
    || At(prev.prompts, i) != At(next.prompts, i)
    || At(prev.dirty, i) != At(next.dirty, i)
    || At(prev.kitty, i) != At(next.kitty, i)
  }

  function DifferingBelow(prev: Rows, next: Rows, n: nat): seq<nat> {
    if n == 0 then []
    else DifferingBelow(prev, next, n - 1) + (if RowDiffers(prev, next, n - 1) then [n - 1] else [])
  }

  function IndicesBelow(n: nat): seq<nat> {
    seq(n, i requires 0 <= i => i)
  }

  function KeepBelow(rows: seq<nat>, n: nat): seq<nat> {
    if rows == [] then []
    else KeepBelow(rows[..|rows| - 1], n)
         + (if rows[|rows| - 1] < n then [rows[|rows| - 1]] else [])
  }

  // ---------- patch kind ----------

  datatype PatchChanges = PatchChanges(
    force: bool, requested: PatchKind, rowCount: bool, lines: bool, runs: bool, prompts: bool,
    dirty: bool, kitty: bool, surfaceKind: bool, styles: bool, cursor: bool, modes: bool,
    title: bool, cwd: bool, colors: bool)

  function TerminalPatchKind(c: PatchChanges): PatchKind {
    var rows := c.lines || c.runs || c.prompts || c.dirty || c.kitty;
    if c.force || c.rowCount || c.surfaceKind || c.styles || (c.colors && rows) then FullRefreshRequired
    else if rows then ReplaceRows
    else if c.colors then ColorOnly
    else if c.modes then ModeOnly
    else if c.cursor || c.title || c.cwd then CursorOnly
    else c.requested
  }

  function DiffStart(prev: seq<u32>, next: seq<u32>): (n: nat)
    ensures n <= |prev| && n <= |next|
    ensures prev[..n] == next[..n]
    ensures n == |prev| || n == |next| || prev[n] != next[n]
  {
    if prev == [] || next == [] || prev[0] != next[0] then 0
    else
      var n := DiffStart(prev[1..], next[1..]);
      assert prev[..n + 1] == [prev[0]] + prev[1..][..n] && next[..n + 1] == [next[0]] + next[1..][..n];
      n + 1
  }

  function DiffPalette(prev: seq<u32>, next: seq<u32>): Option<PaletteDiff> {
    if prev == next then None
    else Some(PaletteDiff(DiffStart(prev, next), next[DiffStart(prev, next)..]))
  }

  // ---------- specification of one update ----------

  predicate ScreenChanged(p: Pane, u: Update) {
    p.screen != Normalize(u.screen)
  }

  predicate SurfaceChanged(p: Pane, u: Update, force: bool) {
    || force || ScreenChanged(p, u) || p.surface != u.surface || p.styles != u.styles
    || p.cursor != u.cursor || p.modes != u.modes || p.title != u.title || p.cwd != u.cwd
    || p.colors != u.colors
  }

  /** The kind in terms of what differs between pane and update; the engine's own request is absent. */
  function KindOfChange(p: Pane, u: Update, force: bool): PatchKind {
    if force || p.surface != u.surface || p.styles != u.styles
       || (p.colors != u.colors && ScreenChanged(p, u)) then FullRefreshRequired
    else if ScreenChanged(p, u) then ReplaceRows
    else if p.colors != u.colors then ColorOnly
    else if p.modes != u.modes then ModeOnly
    else CursorOnly
  }

  function NextScrollback(p: Pane, u: Update): Rows {
    if u.preserveScrollback then p.scrollback else Normalize(u.scrollback)
  }

  function RowsToResend(p: Pane, u: Update): seq<nat> {
    DifferingBelow(p.screen, Normalize(u.screen), Min(|u.screen.lines|, p.rows))
  }

  function Updated(p: Pane, u: Update, force: bool): (q: Pane)
    ensures |q.screen.runs| == |q.screen.prompts| == |q.screen.dirty| == |q.screen.kitty| == |q.screen.lines|
    ensures q.id == p.id && q.cols == p.cols && q.rows == p.rows && q.children == p.children
  {
    var changed := SurfaceChanged(p, u, force);
    var kind := KindOfChange(p, u, force);
    p.(scrollback := NextScrollback(p, u),
       scrollbackVersion :=
         if NextScrollback(p, u) != p.scrollback then SatInc(p.scrollbackVersion) else p.scrollbackVersion,
       surface := u.surface, cursor := u.cursor, modes := u.modes, title := u.title, cwd := u.cwd,
       colors := u.colors, styles := u.styles, screen := Truncate(Normalize(u.screen), p.rows),
       surfaceVersion := if changed then SatInc(p.surfaceVersion) else p.surfaceVersion,
       patchKind := if changed then kind else p.patchKind,
       paletteDiff :=
         if changed && kind == ColorOnly then DiffPalette(p.colors.palette, u.colors.palette) else None,
       rowUpdates :=
         if !changed then p.rowUpdates else if kind == ReplaceRows then RowsToResend(p, u) else [])
  }

  // ---------- what an update leaves, field by field ----------

  /** The row vectors an engine reported are taken as they are when they agree with the lines; otherwise every row
      is one plain run of its line, without prompt or flags. */
  ghost predicate TakesRows(reported: Rows, taken: Rows) {
    && taken.lines == reported.lines
    && |taken.runs| == |taken.prompts| == |taken.dirty| == |taken.kitty| == |taken.lines|
    && (if |reported.runs| == |reported.lines|
           && forall i | 0 <= i < |reported.lines| :: RunText(reported.runs[i]) == reported.lines[i]
        then taken.runs == reported.runs
        else forall i | 0 <= i < |taken.runs| ::
          taken.runs[i] == [CellRun(taken.lines[i], seq(|taken.lines[i]|, _ => 1), 0, 0, 0, OutputCell)])
    && (if |reported.prompts| == |reported.lines| then taken.prompts == reported.prompts
        else forall i | 0 <= i < |taken.prompts| :: taken.prompts[i] == NoPrompt)
    && (if |reported.dirty| == |reported.lines| then taken.dirty == reported.dirty
        else forall i | 0 <= i < |taken.dirty| :: !taken.dirty[i])
    && (if |reported.kitty| == |reported.lines| then taken.kitty == reported.kitty
        else forall i | 0 <= i < |taken.kitty| :: !taken.kitty[i])
  }

  // The first `n` rows of a screen.
  predicate FirstRows(all: Rows, shown: Rows, n: nat)
    requires |all.runs| == |all.prompts| == |all.dirty| == |all.kitty| == |all.lines|
  {
    var k := if |all.lines| <= n then |all.lines| else n;
    && shown.lines == all.lines[..k] && shown.runs == all.runs[..k] && shown.prompts == all.prompts[..k]
    && shown.dirty == all.dirty[..k] && shown.kitty == all.kitty[..k]
  }

  /** The pane shows what the engine reported: every field is the update's, the screen its first rows, and the
      scrollback is the update's unless the old one is to be preserved. */
  ghost predicate ShowsUpdate(p: Pane, u: Update, q: Pane) {
    && q.title == u.title && q.cwd == u.cwd && q.surface == u.surface && q.cursor == u.cursor
    && q.modes == u.modes && q.colors == u.colors && q.styles == u.styles
    && (exists all :: TakesRows(u.screen, all) && FirstRows(all, q.screen, q.rows))
    && (if u.preserveScrollback then q.scrollback == p.scrollback else TakesRows(u.scrollback, q.scrollback))
  }

  /** An update is only about content. */
  predicate KeepsPlace(p: Pane, q: Pane) {
    && q.id == p.id && q.axis == p.axis && q.children == p.children && q.host == p.host
    && q.cols == p.cols && q.rows == p.rows && q.policy == p.policy
  }

  lemma NormalizeTakes(r: Rows)
    ensures TakesRows(r, Normalize(r))
  {
  }

  lemma UpdateIsShown(p: Pane, u: Update, force: bool)
    ensures ShowsUpdate(p, u, Updated(p, u, force)) && KeepsPlace(p, Updated(p, u, force))
  {
    hide TakesRows;
    NormalizeTakes(u.screen);
    NormalizeTakes(u.scrollback);
    assert FirstRows(Normalize(u.screen), Updated(p, u, force).screen, p.rows);
  }

  // ---------- the operations ----------

  method SurfaceRowUpdateIndices(p: Pane, next: Rows, force: bool) returns (rows: seq<nat>)
    ensures force ==> rows == IndicesBelow(p.rows)
    ensures !force ==> rows == DifferingBelow(p.screen, next, |next.lines|)
  {
    if force {
      return IndicesBelow(p.rows);
    }
    if |p.screen.lines| != |next.lines| {
      AllDiffer(p.screen, next, |next.lines|);
      return IndicesBelow(|next.lines|);
    }
    rows := [];
    for row := 0 to |next.lines|
      invariant rows == DifferingBelow(p.screen, next, row)
    {
      if At(p.screen.lines, row) != At(next.lines, row)
        || At(p.screen.runs, row) != At(next.runs, row)
        || At(p.screen.prompts, row) != At(next.prompts, row)
        || At(p.screen.dirty, row) != At(next.dirty, row)
        || At(p.screen.kitty, row) != At(next.kitty, row)
      {
        rows := rows + [row];
      }
    }
  }

  /** The comparisons of pane and update, made before anything is assigned. */
  method CompareUpdate(p: Pane, u: Update, force: bool)
    returns (next: Rows, surfaceChanged: bool, kind: PatchKind, rows: seq<nat>)
    ensures next == Normalize(u.screen)
    ensures surfaceChanged == SurfaceChanged(p, u, force)
    ensures surfaceChanged ==> kind == KindOfChange(p, u, force)
    ensures !force ==> rows == DifferingBelow(p.screen, next, |next.lines|)
  {
    next := Rows(u.screen.lines, RunsForLines(u.screen.lines, u.screen.runs),
                 ForLines(u.screen.lines, u.screen.prompts, NoPrompt),
                 ForLines(u.screen.lines, u.screen.dirty, false),
                 ForLines(u.screen.lines, u.screen.kitty, false));
    SameRows(p.screen, next);
    var c := PatchChanges(
      force, u.patchKind,
      force && |p.screen.lines| != Min(|u.screen.lines|, p.rows),
      p.screen.lines != next.lines, p.screen.runs != next.runs, p.screen.prompts != next.prompts,
      p.screen.dirty != next.dirty, p.screen.kitty != next.kitty,
      p.surface != u.surface, p.styles != u.styles, p.cursor != u.cursor, p.modes != u.modes,
      p.title != u.title, p.cwd != u.cwd, p.colors != u.colors);
    rows := SurfaceRowUpdateIndices(p, next, force);
    surfaceChanged :=
      c.force || c.surfaceKind || c.styles || c.lines || c.runs || c.prompts || c.dirty || c.kitty
      || c.cursor || c.modes || c.title || c.cwd || c.colors;
    kind := TerminalPatchKind(c);
  }

  method ApplyTerminalUpdate(pane: Pane, u: Update, force: bool) returns (p: Pane, changed: bool)
    ensures p == Updated(pane, u, force)
    ensures ShowsUpdate(pane, u, p) && KeepsPlace(pane, p)
    ensures changed <==> SurfaceChanged(pane, u, force) || NextScrollback(pane, u) != pane.scrollback
  {
    UpdateIsShown(pane, u, force);
    p := pane;
    var maxRows: nat := pane.rows;
    var next, surfaceChanged, kind, rows := CompareUpdate(pane, u, force);
    var scrollback := Normalize(u.scrollback);
    var diff := DiffPalette(pane.colors.palette, u.colors.palette);
    var scrollbackChanged := !u.preserveScrollback && pane.scrollback != scrollback;
    changed := surfaceChanged || scrollbackChanged;

    if !u.preserveScrollback {
      p := p.(scrollback := scrollback);
    }
    p := p.(surface := u.surface, modes := u.modes, title := u.title, cwd := u.cwd,
            colors := u.colors, styles := u.styles);
    p := p.(screen := Truncate(next, maxRows), cursor := u.cursor);
    if scrollbackChanged {
      p := p.(scrollbackVersion := SatInc(pane.scrollbackVersion));
    }
    if surfaceChanged {
      KeepDiffering(pane.screen, next, |next.lines|, maxRows);
      p := p.(surfaceVersion := SatInc(pane.surfaceVersion), patchKind := kind,
              paletteDiff := if kind == ColorOnly then diff else None,
              rowUpdates := if kind == ReplaceRows then KeepBelow(rows, maxRows) else []);
    } else {
      p := p.(paletteDiff := None);
    }
  }

  /** A pane as `new_pane_from_template` makes it. */
  function NewPane(id: string, host: Host, cols: u32, rows: u32): Pane {
    var lines := ["nmux " + id, "server-owned terminal state"];
    var history := ["booting nmux workspace"] + lines;
    Pane(id, NoSplit, [], host.(id := id, initialSize := Some((cols, rows))), 1, ReplaceRows,
         IndicesBelow(2), 1, cols, rows, Fixed, Main, Cursor(1, 0, true, Block, true), DEFAULT_MODES, "", "",
         DEFAULT_COLORS, None, [DEFAULT_STYLE], PlainRows(lines), PlainRows(history))
  }

  /** The half of a split that keeps the pane's content (`split_pane_node`). */
  function Shrunk(p: Pane, cols: u32, rows: u32): Pane {
    p.(cols := cols, rows := rows, host := p.host.(initialSize := Some((cols, rows))),
       surfaceVersion := SatInc(p.surfaceVersion), patchKind := FullRefreshRequired,
       rowUpdates := IndicesBelow(|p.screen.lines|), paletteDiff := None)
  }

  function PlainRows(lines: seq<string>): Rows {
    Rows(lines, seq(|lines|, i requires 0 <= i < |lines| => [PlainRun(lines[i])]), seq(|lines|, _ => NoPrompt),
         seq(|lines|, _ => false), seq(|lines|, _ => false))
  }

  // ---------- facts ----------

  lemma PlainRowsCoherent(lines: seq<string>)
    ensures Coherent(PlainRows(lines))
  {
    forall i | 0 <= i < |lines| ensures RunText(PlainRows(lines).runs[i]) == lines[i] {
      PlainRunText(lines[i]);
    }
  }

  lemma SameRows(a: Rows, b: Rows)
    ensures a == b <==> a.lines == b.lines && a.runs == b.runs && a.prompts == b.prompts
                        && a.dirty == b.dirty && a.kitty == b.kitty
  {
  }

  lemma {:induction false} AllDiffer(prev: Rows, next: Rows, n: nat)
    requires |prev.lines| != |next.lines|
    ensures DifferingBelow(prev, next, n) == IndicesBelow(n)
  {
    if n > 0 {
      AllDiffer(prev, next, n - 1);
    }
  }

  lemma {:induction false} KeepDiffering(prev: Rows, next: Rows, n: nat, m: nat)
    ensures KeepBelow(DifferingBelow(prev, next, n), m) == DifferingBelow(prev, next, Min(n, m))
  {
    if n > 0 {
      KeepDiffering(prev, next, n - 1, m);
      var all := DifferingBelow(prev, next, n);
      if RowDiffers(prev, next, n - 1) {
        assert all[|all| - 1] == n - 1 && all[..|all| - 1] == DifferingBelow(prev, next, n - 1);
      } else {
        assert all == DifferingBelow(prev, next, n - 1);
        assert n <= m ==> DifferingBelow(prev, next, n) == DifferingBelow(prev, next, Min(n, m));
      }
    }
  }

  /** The rows resent are exactly the differing ones below the bound, in strictly increasing order. */
  lemma {:induction false} DifferingRows(prev: Rows, next: Rows, n: nat)
    ensures var rows := DifferingBelow(prev, next, n);
            && (forall r :: r in rows <==> 0 <= r < n && RowDiffers(prev, next, r))
            && (forall i, j | 0 <= i < j < |rows| :: rows[i] < rows[j])
  {
    if n > 0 {
      DifferingRows(prev, next, n - 1);
      var before := DifferingBelow(prev, next, n - 1);
      var last := if RowDiffers(prev, next, n - 1) then [n - 1] else [];
      assert DifferingBelow(prev, next, n) == before + last;
      assert forall i | 0 <= i < |before| :: before[i] in before;
    }
  }

  /** The engine's requested patch kind never influences the pane. */
  lemma RequestedKindIgnored(p: Pane, u: Update, force: bool, k: PatchKind)
    ensures Updated(p, u, force) == Updated(p, u.(patchKind := k), force)
  {
    assert Normalize(u.(patchKind := k).screen) == Normalize(u.screen);
  }

  lemma NormalizeCoherent(r: Rows)
    ensures Coherent(Normalize(r))
    ensures Normalize(r).lines == r.lines
    ensures Coherent(r) ==> Normalize(r) == r
  {
    forall i | 0 <= i < |r.lines| ensures RunText(Normalize(r).runs[i]) == r.lines[i] {
      PlainRunText(r.lines[i]);
    }
  }

  lemma TruncateCoherent(r: Rows, n: nat)
    requires Coherent(r)
    ensures Coherent(Truncate(r, n)) && |Truncate(r, n).lines| == Min(|r.lines|, n)
  {
  }

  /** Whatever the engine returns, a pane's row vectors agree afterwards, the screen fits the pane,
      and a `ReplaceRows` bump lists strictly increasing rows of that screen. */
  lemma UpdateKeepsRowsCoherent(p: Pane, u: Update, force: bool)
    requires Coherent(p.scrollback)
    ensures var q := Updated(p, u, force);
            && Coherent(q.screen) && Coherent(q.scrollback)
            && |q.screen.lines| == Min(|u.screen.lines|, p.rows)
            && (SurfaceChanged(p, u, force) ==>
                  && (forall i | 0 <= i < |q.rowUpdates| :: q.rowUpdates[i] < |q.screen.lines| <= q.rows)
                  && (forall i, j | 0 <= i < j < |q.rowUpdates| :: q.rowUpdates[i] < q.rowUpdates[j]))
  {
    NormalizeCoherent(u.screen);
    NormalizeCoherent(u.scrollback);
    TruncateCoherent(Normalize(u.screen), p.rows);
    DifferingRows(p.screen, Normalize(u.screen), Min(|u.screen.lines|, p.rows));
    var q := Updated(p, u, force);
    assert forall i | 0 <= i < |q.rowUpdates| :: q.rowUpdates[i] in q.rowUpdates;
  }

  /** Versions only grow, by at most one per update, and content with an unchanged version is unchanged. */
  lemma VersionsTrackContent(p: Pane, u: Update, force: bool)
    requires Coherent(p.screen) && |p.screen.lines| <= p.rows
    ensures var q := Updated(p, u, force);
            && p.surfaceVersion <= q.surfaceVersion <= p.surfaceVersion + 1
            && p.scrollbackVersion <= q.scrollbackVersion <= p.scrollbackVersion + 1
            && (p.surfaceVersion < U64_MAX && q.surfaceVersion == p.surfaceVersion ==>
                  q == p.(scrollback := q.scrollback, scrollbackVersion := q.scrollbackVersion, paletteDiff := None))
            && (p.scrollbackVersion < U64_MAX && q.scrollbackVersion == p.scrollbackVersion ==>
                  q.scrollback == p.scrollback)
  {
  }

  lemma TakenIsUnique(reported: Rows, taken: Rows)
    requires TakesRows(reported, taken)
    ensures taken == Normalize(reported)
  {
    NormalizeTakes(reported);
    var n := Normalize(reported);
    assert taken.runs == n.runs && taken.prompts == n.prompts && taken.dirty == n.dirty && taken.kitty == n.kitty;
  }

  /** Versions, kind and palette diff of an update, from what the pane was and what the engine reported: `all` and
      `history` are the reported rows as they are taken. */
  lemma UpdateIsAnnounced(p: Pane, u: Update, force: bool, all: Rows, history: Rows)
    requires TakesRows(u.screen, all) && TakesRows(u.scrollback, history)
    ensures var q := Updated(p, u, force);
            var recast := force || p.surface != u.surface || p.styles != u.styles;
            var other := p.cursor != u.cursor || p.title != u.title || p.cwd != u.cwd;
            var changed := recast || all != p.screen || p.colors != u.colors || p.modes != u.modes || other;
            && q.surfaceVersion == (if changed && p.surfaceVersion < U64_MAX then p.surfaceVersion + 1
                                    else p.surfaceVersion)
            && q.scrollbackVersion == (if !u.preserveScrollback && history != p.scrollback
                                          && p.scrollbackVersion < U64_MAX then p.scrollbackVersion + 1
                                       else p.scrollbackVersion)
            && (changed ==>
                  q.patchKind == if recast || (p.colors != u.colors && all != p.screen) then FullRefreshRequired
                                 else if all != p.screen then ReplaceRows
                                 else if p.colors != u.colors then ColorOnly
                                 else if p.modes != u.modes then ModeOnly
                                 else CursorOnly)
            && (!changed ==> q.patchKind == p.patchKind && q.rowUpdates == p.rowUpdates)
            && (q.paletteDiff.Some?
                <==> !recast && all == p.screen && p.colors != u.colors && p.colors.palette != u.colors.palette)
            && (changed && q.patchKind != ReplaceRows ==> q.rowUpdates == [])
  {
    TakenIsUnique(u.screen, all);
    TakenIsUnique(u.scrollback, history);
  }
}
