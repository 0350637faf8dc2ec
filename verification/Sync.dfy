/** When a client's mirror follows a pane: which snapshots and patches reproduce the pane exactly. */
module Sync {
  import opened Types
  import opened PaneUpdate
  import opened Mirror

  /** A row as a mirror holds it. */
  datatype MirrorRow = MirrorRow(text: string, runs: seq<CellRun>, prompt: RowPrompt, dirty: bool, kitty: bool)

  function RowOf(screen: Rows, i: nat): MirrorRow
    requires Sized(screen, |screen.lines|) && i < |screen.lines|
  {
    MirrorRow(screen.lines[i], screen.runs[i], screen.prompts[i], screen.dirty[i], screen.kitty[i])
  }

  function RowSent(u: RowUpdate): MirrorRow {
    MirrorRow(u.text, CachedRuns(u), u.prompt, u.dirty, u.kitty)
  }

  const BLANK_ROW: MirrorRow := MirrorRow("", [], NoPrompt, false, false)

  /** The pane's first `n` rows as a mirror shows them; rows the pane lacks are blank. */
  function ScreenRow(screen: Rows, i: nat): MirrorRow
    requires Sized(screen, |screen.lines|)
  {
    if i < |screen.lines| then RowSent(WireRow(screen, i)) else BLANK_ROW
  }

  function ScreenView(screen: Rows, n: nat): (r: Rows)
    requires Sized(screen, |screen.lines|)
    ensures Sized(r, n)
  {
    Rows(seq(n, i requires 0 <= i => ScreenRow(screen, i).text),
         seq(n, i requires 0 <= i => ScreenRow(screen, i).runs),
         seq(n, i requires 0 <= i => ScreenRow(screen, i).prompt),
         seq(n, i requires 0 <= i => ScreenRow(screen, i).dirty),
         seq(n, i requires 0 <= i => ScreenRow(screen, i).kitty))
  }

  /** What every mirror of the pane at its current version has to equal. */
  function ViewOf(p: Pane): (v: View)
    requires Sized(p.screen, |p.screen.lines|)
    ensures MirrorValid(v)
  {
    View(p.id, p.surfaceVersion, p.cols, p.rows, p.surface, Some(p.cursor), p.modes, p.title, p.cwd,
         p.colors, StylesOrDefault(p.styles), ScreenView(p.screen, p.rows))
  }

  /** The view of a pane, field by field: its content at its version, row by row; hyperlinks are not sent, a row
      without runs gets a plain empty one, and rows the pane lacks are blank. */
  lemma ViewShowsPane(p: Pane, i: nat)
    requires Coherent(p.screen)
    ensures Sized(p.screen, |p.screen.lines|)
    ensures var v := ViewOf(p);
            && (v.paneId, v.version, v.cols, v.rows) == (p.id, p.surfaceVersion, p.cols, p.rows)
            && (v.surface, v.modes, v.title, v.cwd, v.colors) == (p.surface, p.modes, p.title, p.cwd, p.colors)
            && v.cursor == Some(p.cursor) && v.styles == if p.styles == [] then [DEFAULT_STYLE] else p.styles
    ensures i < p.rows ==>
      var s := ViewOf(p).screen;
      if i < |p.screen.lines| then
        && s.lines[i] == p.screen.lines[i] && s.prompts[i] == p.screen.prompts[i]
        && s.dirty[i] == p.screen.dirty[i] && s.kitty[i] == p.screen.kitty[i]
        && (if p.screen.runs[i] == [] then s.runs[i] == [PlainRun("")]
            else && |s.runs[i]| == |p.screen.runs[i]|
                 && forall j | 0 <= j < |s.runs[i]| :: s.runs[i][j] == p.screen.runs[i][j].(hyperlinkId := 0))
      else s.lines[i] == "" && s.runs[i] == [] && s.prompts[i] == NoPrompt && !s.dirty[i] && !s.kitty[i]
  {
    if i < p.rows && i < |p.screen.lines| {
      WireTextSame(p.screen.runs[i]);
    }
  }

  lemma SameScreen(a: Rows, b: Rows, n: nat)
    requires Sized(a, n) && Sized(b, n)
    ensures a == b <==> forall i | 0 <= i < n :: RowOf(a, i) == RowOf(b, i)
  {
    if forall i | 0 <= i < n :: RowOf(a, i) == RowOf(b, i) {
      assert a.lines == b.lines by {
        forall i | 0 <= i < n ensures a.lines[i] == b.lines[i] { assert RowOf(a, i) == RowOf(b, i); }
      }
      assert a.runs == b.runs by {
        forall i | 0 <= i < n ensures a.runs[i] == b.runs[i] { assert RowOf(a, i) == RowOf(b, i); }
      }
      assert a.prompts == b.prompts by {
        forall i | 0 <= i < n ensures a.prompts[i] == b.prompts[i] { assert RowOf(a, i) == RowOf(b, i); }
      }
      assert a.dirty == b.dirty by {
        forall i | 0 <= i < n ensures a.dirty[i] == b.dirty[i] { assert RowOf(a, i) == RowOf(b, i); }
      }
      assert a.kitty == b.kitty by {
        forall i | 0 <= i < n ensures a.kitty[i] == b.kitty[i] { assert RowOf(a, i) == RowOf(b, i); }
      }
    }
  }

  lemma {:induction false} WireTextSame(runs: seq<CellRun>)
    ensures RunText(WireRuns(runs)) == RunText(runs)
  {
    if runs != [] {
      WireTextSame(runs[1..]);
      assert WireRuns(runs)[1..] == WireRuns(runs[1..]);
    }
  }

  // The effect of a frame that lists the given rows of `source`.
  function PutListed(screen: Rows, source: Rows, rows: seq<nat>): (r: Rows)
    requires Sized(screen, |screen.lines|) && Sized(source, |source.lines|)
    requires forall r | r in rows :: r < |source.lines| && r < |screen.lines|
    ensures Sized(r, |screen.lines|)
  {
    assert forall k | 0 <= k < |rows| :: rows[k] in rows;
    PutRows(screen, WireRows(source, rows))
  }

  lemma {:induction false} PutRowsAt(screen: Rows, source: Rows, rows: seq<nat>, i: nat)
    requires Sized(screen, |screen.lines|) && Sized(source, |source.lines|)
    requires forall r | r in rows :: r < |source.lines| && r < |screen.lines|
    requires i < |screen.lines|
    ensures RowOf(PutListed(screen, source, rows), i)
            == if i in rows then ScreenRow(source, i) else RowOf(screen, i)
    decreases |rows|
  {
    var updates := WireRows(source, rows);
    if rows != [] {
      assert forall k | 0 <= k < |rows| :: rows[k] in rows;
      assert updates[1..] == WireRows(source, rows[1..]);
      var put := PutRow(screen, updates[0]);
      PutRowsAt(put, source, rows[1..], i);
      assert i in rows <==> i == rows[0] || i in rows[1..];
    }
  }

  lemma WireRowsValid(source: Rows, rows: seq<nat>, count: nat)
    requires Sized(source, |source.lines|)
    requires forall r | r in rows :: r < |source.lines|
    requires forall i, j | 0 <= i < j < |rows| :: rows[i] < rows[j]
    ensures RowsValid(WireRows(source, rows), count) <==> forall r | r in rows :: r < count
    ensures HyperlinksKnown(WireRows(source, rows))
  {
    var updates := WireRows(source, rows);
    assert forall i | 0 <= i < |rows| :: updates[i].row == rows[i] && rows[i] in rows;
    if RowsValid(updates, count) {
      forall r | r in rows ensures r < count {
        var k :| 0 <= k < |rows| && rows[k] == r;
        assert updates[k].row < count;
      }
    }
  }

  /** Every run of the listed rows names a style of the pane's table. */
  predicate StylesInTable(p: Pane, rows: seq<nat>)
    requires Sized(p.screen, |p.screen.lines|)
  {
    forall k | 0 <= k < |rows| ::
      rows[k] < |p.screen.lines| ==> StyleIdsKnown(p.screen.runs[rows[k]], p.styles)
  }

  lemma StyleTables(p: Pane, rows: seq<nat>)
    requires Sized(p.screen, |p.screen.lines|)
    requires forall r | r in rows :: r < |p.screen.lines|
    ensures RowStylesKnown(WireRows(p.screen, rows), StylesOrDefault(p.styles)) <==> StylesInTable(p, rows)
  {
    var updates := WireRows(p.screen, rows);
    assert Max(|StylesOrDefault(p.styles)|, 1) == Max(|p.styles|, 1);
    forall k | 0 <= k < |rows|
      ensures StyleIdsKnown(updates[k].runs, StylesOrDefault(p.styles))
              <==> rows[k] < |p.screen.lines| && StyleIdsKnown(p.screen.runs[rows[k]], p.styles)
    {
      assert rows[k] in rows;
      var runs := p.screen.runs[rows[k]];
      assert updates[k].runs == WireRuns(runs);
      if StyleIdsKnown(WireRuns(runs), StylesOrDefault(p.styles)) {
        forall i | 0 <= i < |runs| ensures runs[i].styleId < Max(|p.styles|, 1) {
          assert WireRuns(runs)[i].styleId == runs[i].styleId;
        }
      }
    }
    if StylesInTable(p, rows) {
      forall k | 0 <= k < |rows| ensures StyleIdsKnown(updates[k].runs, StylesOrDefault(p.styles)) {
        assert rows[k] in rows && StyleIdsKnown(p.screen.runs[rows[k]], p.styles);
      }
    }
    if RowStylesKnown(updates, StylesOrDefault(p.styles)) {
      forall k | 0 <= k < |rows| ensures StyleIdsKnown(p.screen.runs[rows[k]], p.styles) {
        assert StyleIdsKnown(updates[k].runs, StylesOrDefault(p.styles));
      }
    }
  }

  /** A snapshot of a pane is accepted exactly when its lines fit its rows and its runs name known styles,
      and an accepted snapshot reproduces the pane. */
  lemma SnapshotReproducesPane(p: Pane)
    requires Coherent(p.screen) && p.id != ""
    ensures FromSnapshot(SnapshotFrame(p)).Ok? <==>
              |p.screen.lines| <= p.rows && StylesInTable(p, IndicesBelow(|p.screen.lines|))
    ensures FromSnapshot(SnapshotFrame(p)).Ok? ==> FromSnapshot(SnapshotFrame(p)) == Ok(ViewOf(p))
  {
    NormalizeCoherent(p.screen);
    var rows := IndicesBelow(|p.screen.lines|);
    assert forall r | r in rows :: r < |p.screen.lines|;
    WireRowsValid(p.screen, rows, p.rows);
    assert |p.screen.lines| > p.rows ==> p.rows in rows by {
      if |p.screen.lines| > p.rows { assert rows[p.rows] == p.rows; }
    }
    StyleTables(p, rows);
    if |p.screen.lines| <= p.rows {
      var blank := BlankRows(p.rows);
      PutRowsEverywhere(blank, p.screen, rows);
      var put := PutListed(blank, p.screen, rows);
      forall i | 0 <= i < p.rows ensures RowOf(put, i) == RowOf(ScreenView(p.screen, p.rows), i) {
        assert i < |p.screen.lines| ==> rows[i] == i;
      }
      SameScreen(put, ScreenView(p.screen, p.rows), p.rows);
    }
  }

  lemma PutRowsEverywhere(screen: Rows, source: Rows, rows: seq<nat>)
    requires Sized(screen, |screen.lines|) && Sized(source, |source.lines|)
    requires forall r | r in rows :: r < |source.lines| && r < |screen.lines|
    ensures forall i | 0 <= i < |screen.lines| ::
              RowOf(PutListed(screen, source, rows), i)
              == if i in rows then ScreenRow(source, i) else RowOf(screen, i)
  {
    forall i | 0 <= i < |screen.lines|
      ensures RowOf(PutListed(screen, source, rows), i)
              == if i in rows then ScreenRow(source, i) else RowOf(screen, i)
    {
      PutRowsAt(screen, source, rows, i);
    }
  }

  // ---------- patches ----------

  /** The update leaves no row of the previous screen without a successor. */
  predicate KeepsRowCount(p: Pane, u: Update) {
    Min(|p.screen.lines|, p.rows) <= Min(|u.screen.lines|, p.rows)
  }

  /** The new palette is not a proper prefix of the previous one. */
  predicate PaletteNotCut(p: Pane, u: Update) {
    !(u.colors.palette < p.colors.palette)
  }

  /** Everything about an unforced update on which its patch's success depends. */
  predicate PatchWorks(p: Pane, u: Update) {
    match KindOfChange(p, u, false)
    case ReplaceRows =>
      KeepsRowCount(p, u) && StylesInTable(p.(screen := Normalize(u.screen)), RowsToResend(p, u))
    case ColorOnly => PaletteNotCut(p, u)
    case _ => true
  }

  lemma SentRowNotBlank(screen: Rows, i: nat)
    requires Sized(screen, |screen.lines|) && i < |screen.lines|
    ensures ScreenRow(screen, i) != BLANK_ROW
  {
    assert |ScreenRow(screen, i).runs| >= 1;
  }

  lemma TruncatedRow(screen: Rows, n: nat, i: nat)
    requires Sized(screen, |screen.lines|) && i < n
    ensures ScreenRow(Truncate(screen, n), i) == ScreenRow(screen, i)
  {
  }

  function ResentRows(before: Rows, next: Rows, n: nat): seq<nat> {
    DifferingBelow(before, next, Min(|next.lines|, n))
  }

  lemma ResentRow(before: Rows, next: Rows, n: nat, i: nat)
    requires Coherent(before) && Coherent(next) && i < n
    ensures (if i in ResentRows(before, next, n) then ScreenRow(Truncate(next, n), i)
             else ScreenRow(before, i)) == ScreenRow(Truncate(next, n), i)
            <==> i < |next.lines| || i >= |before.lines|
  {
    DifferingRows(before, next, Min(|next.lines|, n));
    TruncatedRow(next, n, i);
    if i < |next.lines| {
      if i !in ResentRows(before, next, n) {
        assert At(before.lines, i) == At(next.lines, i) && At(before.runs, i) == At(next.runs, i);
      }
    } else if i < |before.lines| {
      SentRowNotBlank(before, i);
    }
  }

  lemma LeftoverRows(put: Rows, goal: Rows, n: nat, sent: nat, held: nat)
    requires Sized(put, n) && Sized(goal, n)
    requires forall i | 0 <= i < n :: RowOf(put, i) == RowOf(goal, i) <==> i < sent || i >= held
    ensures put == goal <==> Min(held, n) <= Min(sent, n)
  {
    SameScreen(put, goal, n);
    if sent < n && sent < held {
      assert RowOf(put, sent) != RowOf(goal, sent);
    }
  }

  lemma ResentRowsInRange(before: Rows, next: Rows, n: nat)
    requires Coherent(next)
    ensures forall r | r in ResentRows(before, next, n) :: r < |Truncate(next, n).lines| && r < n
  {
    DifferingRows(before, next, Min(|next.lines|, n));
  }

  /** Rows resent over the old screen give the new screen exactly when no old row is left over. */
  lemma ResentRowsGiveScreen(before: Rows, next: Rows, n: nat)
    requires Coherent(before) && Coherent(next)
    requires forall r | r in ResentRows(before, next, n) :: r < |Truncate(next, n).lines| && r < n
    ensures PutListed(ScreenView(before, n), Truncate(next, n), ResentRows(before, next, n))
            == ScreenView(Truncate(next, n), n)
            <==> Min(|before.lines|, n) <= Min(|next.lines|, n)
  {
    var rows := ResentRows(before, next, n);
    var put := PutListed(ScreenView(before, n), Truncate(next, n), rows);
    var goal := ScreenView(Truncate(next, n), n);
    forall i | 0 <= i < n
      ensures RowOf(put, i) == RowOf(goal, i) <==> i < |next.lines| || i >= |before.lines|
    {
      PutRowsAt(ScreenView(before, n), Truncate(next, n), rows, i);
      ResentRow(before, next, n, i);
    }
    LeftoverRows(put, goal, n, |next.lines|, |before.lines|);
  }

  lemma ShownRowsUnchanged(before: Rows, n: nat)
    requires Coherent(before)
    ensures ScreenView(Truncate(before, n), n) == ScreenView(before, n)
  {
    forall i | 0 <= i < n
      ensures RowOf(ScreenView(Truncate(before, n), n), i) == RowOf(ScreenView(before, n), i)
    {
      TruncatedRow(before, n, i);
    }
    SameScreen(ScreenView(Truncate(before, n), n), ScreenView(before, n), n);
  }

  lemma StylesOfTruncated(p: Pane, q: Pane, rows: seq<nat>)
    requires Coherent(p.screen) && q.screen == Truncate(p.screen, q.rows) && q.styles == p.styles
    requires forall r | r in rows :: r < q.rows
    ensures StylesInTable(p, rows) <==> StylesInTable(q, rows)
  {
    assert forall k | 0 <= k < |rows| :: rows[k] in rows;
  }

  lemma MaterializedPalette(before: seq<u32>, next: seq<u32>, c: Colors)
    requires c.palette == next
    ensures var f := WireColors(c, DiffPalette(before, next), false);
            var m := Materialize(f, before);
            m.Ok? && (m.value == c <==> !(next < before))
  {
    if before != next {
      var n := DiffStart(before, next);
      assert next == next[..n] + next[n..];
      if n == |next| {
        assert next < before;
      } else {
        assert !(next < before);
      }
    }
  }

  lemma ScreenAfterUpdate(p: Pane, u: Update)
    ensures var q := Updated(p, u, false);
            && Coherent(q.screen) && Normalize(q.screen) == q.screen
            && Coherent(Normalize(u.screen)) && q.screen == Truncate(Normalize(u.screen), p.rows)
  {
    NormalizeCoherent(u.screen);
    TruncateCoherent(Normalize(u.screen), p.rows);
    NormalizeCoherent(Updated(p, u, false).screen);
  }

  lemma RowPatchRows(p: Pane, u: Update)
    requires Coherent(p.screen)
    requires SurfaceChanged(p, u, false) && KindOfChange(p, u, false) == ReplaceRows
    ensures var q := Updated(p, u, false);
            var updates := PatchFrame(q, p.surfaceVersion).rowUpdates;
            && RowsValid(updates, p.rows) && HyperlinksKnown(updates)
            && (RowStylesKnown(updates, StylesOrDefault(p.styles))
                <==> StylesInTable(p.(screen := Normalize(u.screen)), RowsToResend(p, u)))
            && (PutRows(ScreenView(p.screen, p.rows), updates) == ScreenView(q.screen, p.rows) <==> KeepsRowCount(p, u))
  {
    var q := Updated(p, u, false);
    var next := Normalize(u.screen);
    var rows := RowsToResend(p, u);
    ScreenAfterUpdate(p, u);
    DifferingRows(p.screen, next, Min(|next.lines|, p.rows));
    ResentRowsInRange(p.screen, next, p.rows);
    ResentRowsGiveScreen(p.screen, next, p.rows);
    WireRowsValid(q.screen, rows, p.rows);
    StyleTables(q, rows);
    StylesOfTruncated(p.(screen := next), q, rows);
    assert PatchFrame(q, p.surfaceVersion).rowUpdates == WireRows(q.screen, rows);
  }

  lemma RowPatchReproducesPane(p: Pane, u: Update)
    requires Coherent(p.screen) && p.id != "" && p.surfaceVersion < U64_MAX
    requires SurfaceChanged(p, u, false) && KindOfChange(p, u, false) == ReplaceRows
    ensures var q := Updated(p, u, false);
            ApplyPatch(ViewOf(p), PatchFrame(q, p.surfaceVersion)) == Ok(ViewOf(q)) <==> PatchWorks(p, u)
  {
    ScreenAfterUpdate(p, u);
    RowPatchRows(p, u);
  }

  /** Main result on patches: the patch for an unforced, version-bumping update that needs no full refresh
      turns the mirror of the old pane into the mirror of the new one if and only if `PatchWorks`. */
  lemma PatchReproducesPane(p: Pane, u: Update)
    requires Coherent(p.screen) && p.id != "" && p.surfaceVersion < U64_MAX
    requires SurfaceChanged(p, u, false) && KindOfChange(p, u, false) != FullRefreshRequired
    ensures var q := Updated(p, u, false);
            && Coherent(q.screen) && q.surfaceVersion == p.surfaceVersion + 1
            && (ApplyPatch(ViewOf(p), PatchFrame(q, p.surfaceVersion)) == Ok(ViewOf(q)) <==> PatchWorks(p, u))
  {
    ScreenAfterUpdate(p, u);
    if KindOfChange(p, u, false) == ReplaceRows {
      RowPatchReproducesPane(p, u);
    } else {
      NormalizeCoherent(p.screen);
      ShownRowsUnchanged(p.screen, p.rows);
      MaterializedPalette(p.colors.palette, u.colors.palette, u.colors);
    }
  }

  // ---------- quiet updates ----------

  lemma QuietUpdateKeepsView(p: Pane, v: Update)
    requires Coherent(p.screen) && !SurfaceChanged(p, v, false)
    ensures var q := Updated(p, v, false);
            && q.id == p.id && q.surfaceVersion == p.surfaceVersion && q.patchKind == p.patchKind
            && q.rows == p.rows && q.colors == p.colors && q.paletteDiff == None
            && Coherent(q.screen) && |q.screen.lines| == Min(|p.screen.lines|, p.rows) && ViewOf(q) == ViewOf(p)
  {
    TruncateCoherent(p.screen, p.rows);
    ShownRowsUnchanged(p.screen, p.rows);
  }

  // The patch after a quiet update: the same, except for a palette diff.
  lemma QuietUpdateFrame(p: Pane, v: Update, base: u64)
    requires Coherent(p.screen) && |p.screen.lines| <= p.rows && !SurfaceChanged(p, v, false)
    ensures p.paletteDiff == None ==> PatchFrame(Updated(p, v, false), base) == PatchFrame(p, base)
  {
  }

  // Without its diff, a colour patch leaves the palette of whoever applies it.
  lemma DroppedPaletteFails(m: View, q: Pane, base: u64)
    requires MirrorValid(m) && Sized(q.screen, |q.screen.lines|)
    requires q.patchKind == ColorOnly && q.paletteDiff == None && m.colors.palette != q.colors.palette
    ensures ApplyPatch(m, PatchFrame(q, base)) != Ok(ViewOf(q))
  {
  }

  /** A quiet update after a change whose patch works keeps the patch working if and only if the palette had
      not changed. */
  lemma QuietUpdateKeepsPatch(p: Pane, u: Update, v: Update)
    requires Coherent(p.screen) && p.id != "" && p.surfaceVersion < U64_MAX
    requires SurfaceChanged(p, u, false) && KindOfChange(p, u, false) != FullRefreshRequired && PatchWorks(p, u)
    requires !SurfaceChanged(Updated(p, u, false), v, false)
    ensures var t := Updated(Updated(p, u, false), v, false);
            && Coherent(t.screen)
            && (ApplyPatch(ViewOf(p), PatchFrame(t, p.surfaceVersion)) == Ok(ViewOf(t))
                <==> p.colors.palette == u.colors.palette)
  {
    hide ApplyPatch, PatchFrame, ViewOf, PatchWorks;
    var q := Updated(p, u, false);
    ScreenAfterUpdate(p, u);
    PatchReproducesPane(p, u);
    QuietUpdateKeepsView(q, v);
    QuietUpdateFrame(q, v, p.surfaceVersion);
    var t := Updated(q, v, false);
    ViewHasColors(p);
    if p.colors.palette != u.colors.palette {
      DroppedPaletteFails(ViewOf(p), t, p.surfaceVersion);
    }
  }

  lemma ViewHasColors(p: Pane)
    requires Coherent(p.screen)
    ensures ViewOf(p).colors == p.colors
  {
  }
}
