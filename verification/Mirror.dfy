/** The content of surface frames and the client's mirror that consumes them. */
module Mirror {
  import opened Types
  import opened PaneUpdate

  /** Decoded colours of a frame: a full palette, or a diff against the receiver's palette. */
  datatype FrameColors = FrameColors(
    fg: u32, bg: u32, cursor: u32, cursorSet: bool,
    palette: seq<u32>, diffStart: Option<nat>, diff: seq<u32>)

  datatype RowUpdate = RowUpdate(
    row: nat, text: string, runs: seq<CellRun>, prompt: RowPrompt, dirty: bool, kitty: bool)

  datatype Frame =
    | Snapshot(paneId: string, version: u64, cols: u32, rows: u32, surface: SurfaceKind,
               cursor: Cursor, modes: Modes, title: string, cwd: string, colors: FrameColors,
               styles: seq<Style>, rowUpdates: seq<RowUpdate>)
    | Patch(paneId: string, version: u64, base: u64, kind: PatchKind,
            cursor: Cursor, modes: Modes, title: string, cwd: string, colors: FrameColors,
            rowUpdates: seq<RowUpdate>)

  /** The state of a client's copy of one pane. */
  datatype View = View(
    paneId: string, version: u64, cols: u32, rows: u32, surface: SurfaceKind, cursor: Option<Cursor>,
    modes: Modes, title: string, cwd: string, colors: Colors, styles: seq<Style>, screen: Rows)

  datatype MirrorError =
    | EmptyPaneId | PaletteDiffNotAllowed | RowOutsideOrRepeated | UnknownStyle | UnknownHyperlink
    | PaneMismatch | BaseMismatch | RowsNotAllowed | FullRefresh | ColorsChanged | BadDiffStart

  ghost predicate Sized(screen: Rows, n: nat) {
    |screen.lines| == |screen.runs| == |screen.prompts| == |screen.dirty| == |screen.kitty| == n
  }

  // ---------- frames built by the daemon ----------

  // The wire form of a run: its hyperlink id is always sent as zero.
  function WireRun(r: CellRun): CellRun {
    r.(hyperlinkId := 0)
  }

  function WireRuns(runs: seq<CellRun>): seq<CellRun> {
    seq(|runs|, i requires 0 <= i < |runs| => WireRun(runs[i]))
  }

  function WireRow(screen: Rows, row: nat): RowUpdate
    requires Sized(screen, |screen.lines|)
  {
    if row >= |screen.lines| then RowUpdate(row, "", [PlainRun("")], NoPrompt, false, false)
    else
      var runs := WireRuns(screen.runs[row]);
      RowUpdate(row, RunText(runs), runs, screen.prompts[row], screen.dirty[row], screen.kitty[row])
  }

  function WireRows(screen: Rows, rows: seq<nat>): seq<RowUpdate>
    requires Sized(screen, |screen.lines|)
  {
    seq(|rows|, i requires 0 <= i < |rows| => WireRow(screen, rows[i]))
  }

  // `build_terminal_colors` followed by `decoded_terminal_colors`: an empty diff decodes as no diff.
  function WireColors(c: Colors, diff: Option<PaletteDiff>, full: bool): FrameColors {
    var colors := if diff.Some? then diff.value.colors else [];
    FrameColors(c.fg, c.bg, c.cursor, c.cursorSet, if full then c.palette else [],
                if colors == [] then None else Some(diff.value.start), colors)
  }

  /** A full frame lists every line the pane holds, also those beyond its row count. */
  function SnapshotFrame(p: Pane): Frame {
    var screen := Normalize(p.screen);
    Snapshot(p.id, p.surfaceVersion, p.cols, p.rows, p.surface, p.cursor, p.modes, p.title, p.cwd,
             WireColors(p.colors, None, true), p.styles,
             WireRows(screen, IndicesBelow(|screen.lines|)))
  }

  function PatchFrame(p: Pane, base: u64): Frame {
    var diff := if p.patchKind == ColorOnly then p.paletteDiff else None;
    Patch(p.id, p.surfaceVersion, base, p.patchKind, p.cursor, p.modes, p.title, p.cwd,
          WireColors(p.colors, diff, p.patchKind != ColorOnly),
          if p.patchKind == ReplaceRows then WireRows(Normalize(p.screen), p.rowUpdates) else [])
  }

  // ---------- the client ----------

  predicate StyleIdsKnown(runs: seq<CellRun>, styles: seq<Style>) {
    forall i | 0 <= i < |runs| :: runs[i].styleId < Max(|styles|, 1)
  }

  predicate RowStylesKnown(rows: seq<RowUpdate>, styles: seq<Style>) {
    forall i | 0 <= i < |rows| :: StyleIdsKnown(rows[i].runs, styles)
  }

  // Frames of this daemon carry an empty hyperlink table, so only id zero is known.
  predicate HyperlinksKnown(rows: seq<RowUpdate>) {
    forall i, j | 0 <= i < |rows| && 0 <= j < |rows[i].runs| :: rows[i].runs[j].hyperlinkId == 0
  }

  predicate RowsValid(rows: seq<RowUpdate>, count: nat) {
    && (forall i | 0 <= i < |rows| :: rows[i].row < count)
    && (forall i, j | 0 <= i < j < |rows| :: rows[i].row != rows[j].row)
  }

  function CachedRuns(u: RowUpdate): seq<CellRun> {
    if u.runs == [] then [PlainRun(u.text)] else u.runs
  }

  function PutRow(screen: Rows, u: RowUpdate): (r: Rows)
    requires Sized(screen, |screen.lines|) && u.row < |screen.lines|
    ensures Sized(r, |screen.lines|)
  {
    Rows(screen.lines[u.row := u.text], screen.runs[u.row := CachedRuns(u)],
         screen.prompts[u.row := u.prompt], screen.dirty[u.row := u.dirty], screen.kitty[u.row := u.kitty])
  }

  function PutRows(screen: Rows, rows: seq<RowUpdate>): (r: Rows)
    requires Sized(screen, |screen.lines|)
    requires forall i | 0 <= i < |rows| :: rows[i].row < |screen.lines|
    ensures Sized(r, |screen.lines|)
    decreases |rows|
  {
    if rows == [] then screen else PutRows(PutRow(screen, rows[0]), rows[1..])
  }

  function BlankRows(n: nat): (r: Rows)
    ensures Sized(r, n)
  {
    Rows(seq(n, _ => ""), seq(n, _ => []), seq(n, _ => NoPrompt), seq(n, _ => false), seq(n, _ => false))
  }

  function StylesOrDefault(styles: seq<Style>): seq<Style> {
    if styles == [] then [DEFAULT_STYLE] else styles
  }

  predicate HasDiff(c: FrameColors) {
    c.diffStart.Some? || c.diff != []
  }

  predicate SameColors(f: FrameColors, c: Colors) {
    f == FrameColors(c.fg, c.bg, c.cursor, c.cursorSet, c.palette, None, [])
  }

  function SnapshotView(f: Frame): View
    requires f.Snapshot? && RowsValid(f.rowUpdates, f.rows)
  {
    View(f.paneId, f.version, f.cols, f.rows, f.surface, Some(f.cursor), f.modes, f.title, f.cwd,
         Colors(f.colors.fg, f.colors.bg, f.colors.cursor, f.colors.cursorSet, f.colors.palette),
         StylesOrDefault(f.styles), PutRows(BlankRows(f.rows), f.rowUpdates))
  }

  function FromSnapshot(f: Frame): Result<View, MirrorError>
    requires f.Snapshot?
  {
    if f.paneId == "" then Err(EmptyPaneId)
    else if HasDiff(f.colors) then Err(PaletteDiffNotAllowed)
    else if !RowsValid(f.rowUpdates, f.rows) then Err(RowOutsideOrRepeated)
    else if !RowStylesKnown(f.rowUpdates, StylesOrDefault(f.styles)) then Err(UnknownStyle)
    else if !HyperlinksKnown(f.rowUpdates) then Err(UnknownHyperlink)
    else Ok(SnapshotView(f))
  }

  function Materialize(f: FrameColors, base: seq<u32>): Result<Colors, MirrorError> {
    if f.diffStart.Some? && f.diffStart.value > |base| then Err(BadDiffStart)
    else
      var palette :=
        if f.diffStart.Some? then base[..f.diffStart.value] + f.diff
        else if f.palette == [] then base else f.palette;
      Ok(Colors(f.fg, f.bg, f.cursor, f.cursorSet, palette))
  }

  ghost predicate MirrorValid(m: View) {
    Sized(m.screen, m.rows)
  }

  function ApplyPatch(m: View, f: Frame): (r: Result<View, MirrorError>)
    requires f.Patch? && MirrorValid(m)
    ensures r.Ok? ==> MirrorValid(r.value) && r.value.paneId == m.paneId && r.value.version == f.version
  {
    if f.paneId == "" then Err(EmptyPaneId)
    else if f.paneId != m.paneId then Err(PaneMismatch)
    else if f.base != m.version then Err(BaseMismatch)
    else if HasDiff(f.colors) && f.kind != ColorOnly then Err(PaletteDiffNotAllowed)
    else if f.rowUpdates != [] && f.kind != ReplaceRows then Err(RowsNotAllowed)
    else
      var touched := m.(cursor := Some(f.cursor), title := f.title, cwd := f.cwd, version := f.version);
      match f.kind
      case FullRefreshRequired => Err(FullRefresh)
      case CursorOnly =>
        if !SameColors(f.colors, m.colors) then Err(ColorsChanged) else Ok(touched)
      case ModeOnly =>
        if !SameColors(f.colors, m.colors) then Err(ColorsChanged) else Ok(touched.(modes := f.modes))
      case ColorOnly =>
        var colors := Materialize(f.colors, m.colors.palette);
        if colors.Err? then Err(colors.error)
        else Ok(touched.(modes := f.modes, colors := colors.value))
      case ReplaceRows =>
        if !SameColors(f.colors, m.colors) then Err(ColorsChanged)
        else if !RowsValid(f.rowUpdates, m.rows) then Err(RowOutsideOrRepeated)
        else if !RowStylesKnown(f.rowUpdates, m.styles) then Err(UnknownStyle)
        else if !HyperlinksKnown(f.rowUpdates) then Err(UnknownHyperlink)
        else Ok(touched.(modes := f.modes, screen := PutRows(m.screen, f.rowUpdates)))
  }

  function ApplyFrame(m: View, f: Frame): (r: Result<View, MirrorError>)
    requires MirrorValid(m)
    ensures r.Ok? ==> MirrorValid(r.value) && r.value.version == f.version
  {
    if f.Snapshot? then FromSnapshot(f) else ApplyPatch(m, f)
  }

  // ---------- what a client accepts ----------

  // The listed rows are on the screen, each once, and name known styles and no hyperlink.
  predicate ListedRight(rows: seq<RowUpdate>, count: nat, styleCount: nat) {
    && (forall i | 0 <= i < |rows| :: rows[i].row < count)
    && (forall i, j | 0 <= i < j < |rows| :: rows[i].row != rows[j].row)
    && (forall i, j | 0 <= i < |rows| && 0 <= j < |rows[i].runs| ::
          rows[i].runs[j].styleId < styleCount && rows[i].runs[j].hyperlinkId == 0)
  }

  /** A snapshot is accepted exactly when it names a pane, carries a whole palette, and its rows are in order. */
  lemma SnapshotAccepted(f: Frame)
    requires f.Snapshot?
    ensures FromSnapshot(f).Ok? <==>
              && f.paneId != "" && f.colors.diffStart.None? && f.colors.diff == []
              && ListedRight(f.rowUpdates, f.rows, if |f.styles| == 0 then 1 else |f.styles|)
  {
    forall i | 0 <= i < |f.rowUpdates|
      ensures StyleIdsKnown(f.rowUpdates[i].runs, StylesOrDefault(f.styles)) <==>
                forall j | 0 <= j < |f.rowUpdates[i].runs| ::
                  f.rowUpdates[i].runs[j].styleId < if |f.styles| == 0 then 1 else |f.styles|
    {
    }
  }

  // A patch of another kind than `ColorOnly` repeats the client's colours in full.
  predicate RepeatsColors(f: Frame, m: View)
    requires f.Patch?
  {
    && f.colors.diffStart.None? && f.colors.diff == [] && f.colors.palette == m.colors.palette
    && f.colors.fg == m.colors.fg && f.colors.bg == m.colors.bg
    && f.colors.cursor == m.colors.cursor && f.colors.cursorSet == m.colors.cursorSet
  }

  /** A patch is only ever applied to the pane and the version it was made for, and only if its kind allows what it
      carries. */
  lemma PatchAccepted(m: View, f: Frame)
    requires f.Patch? && MirrorValid(m)
    ensures ApplyPatch(m, f).Ok? <==>
              && f.paneId != "" && f.paneId == m.paneId && f.base == m.version && f.kind != FullRefreshRequired
              && (f.kind != ReplaceRows ==> f.rowUpdates == [])
              && (f.kind != ColorOnly ==> RepeatsColors(f, m))
              && (f.kind == ColorOnly && f.colors.diffStart.Some? ==> f.colors.diffStart.value <= |m.colors.palette|)
              && (f.kind == ReplaceRows ==>
                    ListedRight(f.rowUpdates, m.rows, if |m.styles| == 0 then 1 else |m.styles|))
  {
    forall i | 0 <= i < |f.rowUpdates|
      ensures StyleIdsKnown(f.rowUpdates[i].runs, m.styles) <==>
                forall j | 0 <= j < |f.rowUpdates[i].runs| ::
                  f.rowUpdates[i].runs[j].styleId < if |m.styles| == 0 then 1 else |m.styles|
    {
    }
  }

  /** What an accepted patch changes: version, cursor, title and directory always, modes unless it is about the
      cursor only, colours and rows only by its kind; size, surface and styles never. */
  lemma PatchChanges(m: View, f: Frame)
    requires f.Patch? && MirrorValid(m) && ApplyPatch(m, f).Ok?
    ensures var v := ApplyPatch(m, f).value;
            && v.version == f.version && v.cursor == Some(f.cursor) && v.title == f.title && v.cwd == f.cwd
            && v.modes == (if f.kind == CursorOnly then m.modes else f.modes)
            && (f.kind != ColorOnly ==> v.colors == m.colors) && (f.kind != ReplaceRows ==> v.screen == m.screen)
            && (v.paneId, v.cols, v.rows, v.surface, v.styles) == (m.paneId, m.cols, m.rows, m.surface, m.styles)
            && (f.kind == ColorOnly ==>
                  && (v.colors.fg, v.colors.bg, v.colors.cursor, v.colors.cursorSet)
                     == (f.colors.fg, f.colors.bg, f.colors.cursor, f.colors.cursorSet)
                  && v.colors.palette == if f.colors.diffStart.Some?
                                         then m.colors.palette[..f.colors.diffStart.value] + f.colors.diff
                                         else if f.colors.palette == [] then m.colors.palette else f.colors.palette)
  {
  }

  method CheckRowIndices(rows: seq<RowUpdate>, count: nat) returns (ok: bool)
    ensures ok <==> RowsValid(rows, count)
  {
    var seen := seq(count, _ => false);
    for i := 0 to |rows|
      invariant |seen| == count
      invariant forall k | 0 <= k < i :: rows[k].row < count
      invariant forall j, k | 0 <= j < k < i :: rows[j].row != rows[k].row
      invariant forall r | 0 <= r < count :: seen[r] <==> exists k | 0 <= k < i :: rows[k].row == r
    {
      var row := rows[i].row;
      if row >= count || seen[row] {
        return false;
      }
      seen := seen[row := true];
    }
    return true;
  }

  /** The cached surface object of a client; a rejected frame leaves it untouched. */
  class ClientPaneSurface {
    var paneId: string
    var version: u64
    var cols: u32
    var rows: u32
    var surface: SurfaceKind
    var cursor: Option<Cursor>
    var modes: Modes
    var title: string
    var cwd: string
    var colors: Colors
    var styles: seq<Style>
    var screen: Rows

    ghost function State(): View
      reads this
    {
      View(paneId, version, cols, rows, surface, cursor, modes, title, cwd, colors, styles, screen)
    }

    constructor (v: View)
      ensures State() == v
    {
      paneId, version, cols, rows, surface := v.paneId, v.version, v.cols, v.rows, v.surface;
      cursor, modes, title, cwd := v.cursor, v.modes, v.title, v.cwd;
      colors, styles, screen := v.colors, v.styles, v.screen;
    }

    method ApplyRows(updates: seq<RowUpdate>)
      requires MirrorValid(State()) && RowsValid(updates, rows)
      modifies this`screen
      ensures screen == PutRows(old(screen), updates)
    {
      for i := 0 to |updates|
        invariant Sized(screen, rows)
        invariant PutRows(screen, updates[i..]) == PutRows(old(screen), updates)
      {
        assert updates[i..][1..] == updates[i + 1..];
        var u := updates[i];
        screen := screen.(lines := screen.lines[u.row := u.text], runs := screen.runs[u.row := CachedRuns(u)]);
        screen := screen.(prompts := screen.prompts[u.row := u.prompt], dirty := screen.dirty[u.row := u.dirty]);
        screen := screen.(kitty := screen.kitty[u.row := u.kitty]);
      }
    }

    method Load(f: Frame)
      requires f.Snapshot? && RowsValid(f.rowUpdates, f.rows)
      modifies this
      ensures State() == SnapshotView(f)
    {
      hide PutRows, RowsValid;
      paneId, version, cols, rows, surface := f.paneId, f.version, f.cols, f.rows, f.surface;
      cursor, modes, title, cwd := Some(f.cursor), f.modes, f.title, f.cwd;
      colors := Colors(f.colors.fg, f.colors.bg, f.colors.cursor, f.colors.cursorSet, f.colors.palette);
      styles := StylesOrDefault(f.styles);
      screen := BlankRows(f.rows);
      ApplyRows(f.rowUpdates);
    }

    method ApplySnapshot(f: Frame) returns (r: Result<(), MirrorError>)
      requires f.Snapshot?
      modifies this
      ensures match FromSnapshot(f)
              case Ok(v) => r.Ok? && State() == v
              case Err(e) => r == Err(e) && State() == old(State())
    {
      if f.paneId == "" { return Err(EmptyPaneId); }
      if HasDiff(f.colors) { return Err(PaletteDiffNotAllowed); }
      var valid := CheckRowIndices(f.rowUpdates, f.rows);
      if !valid { return Err(RowOutsideOrRepeated); }
      if !RowStylesKnown(f.rowUpdates, StylesOrDefault(f.styles)) { return Err(UnknownStyle); }
      if !HyperlinksKnown(f.rowUpdates) { return Err(UnknownHyperlink); }
      Load(f);
      return Ok(());
    }

    method ApplyPatchFrame(f: Frame) returns (r: Result<(), MirrorError>)
      requires f.Patch? && MirrorValid(State())
      modifies this
      ensures match ApplyPatch(old(State()), f)
              case Ok(v) => r.Ok? && State() == v
              case Err(e) => r == Err(e) && State() == old(State())
    {
      hide PutRows, Materialize, SameColors, RowsValid, RowStylesKnown, HyperlinksKnown;
      if f.paneId == "" { return Err(EmptyPaneId); }
      if f.paneId != paneId { return Err(PaneMismatch); }
      if f.base != version { return Err(BaseMismatch); }
      if HasDiff(f.colors) && f.kind != ColorOnly { return Err(PaletteDiffNotAllowed); }
      if f.rowUpdates != [] && f.kind != ReplaceRows { return Err(RowsNotAllowed); }
      if f.kind == FullRefreshRequired { return Err(FullRefresh); }
      if f.kind == ColorOnly {
        var materialized := Materialize(f.colors, colors.palette);
        if materialized.Err? { return Err(materialized.error); }
        colors := materialized.value;
      } else {
        if !SameColors(f.colors, colors) { return Err(ColorsChanged); }
        if f.kind == ReplaceRows {
          var valid := CheckRowIndices(f.rowUpdates, rows);
          if !valid { return Err(RowOutsideOrRepeated); }
          if !RowStylesKnown(f.rowUpdates, styles) { return Err(UnknownStyle); }
          if !HyperlinksKnown(f.rowUpdates) { return Err(UnknownHyperlink); }
          ApplyRows(f.rowUpdates);
        }
      }
      cursor, title, cwd, version := Some(f.cursor), f.title, f.cwd, f.version;
      if f.kind != CursorOnly {
        modes := f.modes;
      }
      return Ok(());
    }
  }
}
