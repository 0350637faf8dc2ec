/** Inputs on which patches and snapshots do not reproduce a pane. The conditions under which they do are
    `Sync.PatchReproducesPane`, `Sync.QuietUpdateKeepsPatch` and `Sync.SnapshotReproducesPane`. */
module Limits {
  import opened Types
  import opened PaneUpdate
  import opened Mirror
  import opened Sync
  import opened ClientLink
  import opened Delivery

  /** An update that reports exactly what the pane already shows. */
  function Echo(p: Pane): Update {
    Update(ReplaceRows, p.surface, true, p.cursor, p.modes, p.title, p.cwd, p.colors, p.styles, p.screen, p.scrollback)
  }

  /** Cutting colours off the end of a palette sends an empty diff, which the client reads as "no diff":
      it accepts the patch and keeps the old palette. */
  lemma ShortenedPaletteIsLost(p: Pane, n: nat)
    requires Coherent(p.screen) && p.id != "" && p.surfaceVersion < U64_MAX && n < |p.colors.palette|
    ensures var u := Echo(p).(colors := p.colors.(palette := p.colors.palette[..n]));
            var q := Updated(p, u, false);
            var r := ApplyPatch(ViewOf(p), PatchFrame(q, p.surfaceVersion));
            && q.colors.palette == p.colors.palette[..n]
            && r.Ok? && r.value.version == q.surfaceVersion && r.value.colors.palette == p.colors.palette
  {
    var u := Echo(p).(colors := p.colors.(palette := p.colors.palette[..n]));
    var q := Updated(p, u, false);
    NormalizeCoherent(p.screen);
    assert KindOfChange(p, u, false) == ColorOnly;
    var d := DiffStart(p.colors.palette, u.colors.palette);
    assert d == n;
    assert WireColors(q.colors, q.paletteDiff, false).diff == [];
  }

  /** Showing fewer lines sends no row update for the ones that vanished, so the mirror keeps them. */
  lemma VanishedRowStays(p: Pane, n: nat)
    requires Coherent(p.screen) && p.id != "" && p.surfaceVersion < U64_MAX
    requires n < |p.screen.lines| <= p.rows
    ensures var u := Echo(p).(screen := Truncate(p.screen, n));
            var q := Updated(p, u, false);
            && q.patchKind == ReplaceRows && |q.screen.lines| == n
            && ApplyPatch(ViewOf(p), PatchFrame(q, p.surfaceVersion)) != Ok(ViewOf(q))
  {
    var u := Echo(p).(screen := Truncate(p.screen, n));
    TruncateCoherent(p.screen, n);
    NormalizeCoherent(u.screen);
    assert !PatchWorks(p, u);
    PatchReproducesPane(p, u);
  }

  /** A palette change followed, before its patch is built, by an update that changes nothing visible: the
      stored diff is cleared while the kind stays `ColorOnly`, and the patch no longer carries a palette. */
  lemma QuietUpdateDropsPalette(p: Pane, u: Update, v: Update)
    requires Coherent(p.screen) && p.id != "" && p.surfaceVersion < U64_MAX
    requires SurfaceChanged(p, u, false) && KindOfChange(p, u, false) == ColorOnly
    requires p.colors.palette != u.colors.palette
    requires !SurfaceChanged(Updated(p, u, false), v, false)
    ensures var q := Updated(Updated(p, u, false), v, false);
            var r := ApplyPatch(ViewOf(p), PatchFrame(q, p.surfaceVersion));
            && q.surfaceVersion == p.surfaceVersion + 1 && q.colors.palette == u.colors.palette
            && r.Ok? && r.value.version == q.surfaceVersion && r.value.colors.palette == p.colors.palette
  {
    var q := Updated(p, u, false);
    var t := Updated(q, v, false);
    assert t.paletteDiff == None && t.patchKind == ColorOnly;
  }

  /** A pane one row high starts with two lines, and no client accepts its snapshot. */
  lemma OneRowPaneIsUndeliverable(id: string, host: Host, cols: u32)
    requires id != ""
    ensures FromSnapshot(SnapshotFrame(NewPane(id, host, cols, 1))).Err?
  {
    var p := NewPane(id, host, cols, 1);
    PlainRowsCoherent(p.screen.lines);
    SnapshotReproducesPane(p);
  }

  /** A pane just split has no patch, and its snapshot is accepted, by a client with any mirrors, if and only if
      the lines it kept fit its half and their styles are known. So a full screen that is split across and
      announced before the next output is refused by every client. */
  lemma SplitPaneIsDeliverable(
      p: Pane, cols: u32, rows: u32, mirrors: map<string, View>, snapshotSize: nat, patchSize: nat)
    requires Coherent(p.screen) && p.id != ""
    ensures var q := Shrunk(p, cols, rows);
            var b := Bundle(q, snapshotSize, patchSize);
            && b.patch == None
            && (Received(mirrors, b.snapshot.value.frame).Some?
                <==> |p.screen.lines| <= rows && StylesInTable(p, IndicesBelow(|p.screen.lines|)))
  {
    SnapshotReproducesPane(Shrunk(p, cols, rows));
  }
}
