/** The client's saved attach state: what `encode` writes and `decode` reads back, for every state. */
module ClientState {
  import opened Types
  import opened Text
  import opened StateText
  import opened Mirror

  datatype Scope = Scope(dev: u64, ino: u64, ctime: i64, ctimeNsec: i64)

  datatype CachedScrollback = CachedScrollback(
    paneId: string, version: u64, startLine: u64, lineCount: u32, totalLines: u64)

  datatype Hyperlink = Hyperlink(id: u32, uri: string, osc8Id: string, params: string)

  /** A cached surface: the mirror's view, its hyperlink table and the per-row hashes. */
  datatype CachedSurface = CachedSurface(
    view: View, hyperlinks: seq<Hyperlink>, stateHashes: seq<u64>, dirtyHashes: seq<u64>)

  datatype AttachState = AttachState(
    scope: Option<Scope>, surfaces: seq<CachedSurface>, scrollbacks: seq<CachedScrollback>)

  type Fields = seq<string>

  ghost predicate RowsFit(c: CachedSurface) {
    Sized(c.view.screen, c.view.rows) && |c.stateHashes| == |c.dirtyHashes| == c.view.rows
  }

  ghost predicate StateFits(s: AttachState) {
    forall i | 0 <= i < |s.surfaces| :: RowsFit(s.surfaces[i])
  }

  // ---------- writing ----------

  const HEADER: Fields := ["NMUX_CLIENT_STATE", "8"]

  function ScopeLine(s: Scope): Fields {
    ["scope", "socket", PrintNat(s.dev), PrintNat(s.ino), PrintInt(s.ctime), PrintInt(s.ctimeNsec)]
  }

  function ScopeLines(s: Option<Scope>): seq<Fields> {
    if s.None? then [] else [ScopeLine(s.value)]
  }

  function ScrollbackLine(s: CachedScrollback): Fields {
    ["scrollback", HexText(s.paneId), PrintNat(s.version), PrintNat(s.startLine), PrintNat(s.lineCount),
     PrintNat(s.totalLines)]
  }

  function ScrollbackLines(ss: seq<CachedScrollback>): seq<Fields> {
    if ss == [] then [] else [ScrollbackLine(ss[0])] + ScrollbackLines(ss[1..])
  }

  function SurfaceLine(v: View): Fields {
    ["surface", HexText(v.paneId), PrintNat(v.version), PrintNat(v.cols), PrintNat(v.rows),
     PrintNat(SurfaceCode(v.surface))]
  }

  function CursorLine(c: Option<Cursor>): Fields {
    if c.None? then ["cursor", "none"]
    else ["cursor", PrintNat(c.value.row), PrintNat(c.value.col), Flag(c.value.visible),
          PrintNat(ShapeCode(c.value.shape)), Flag(c.value.blinking)]
  }

  function ModesLine(m: Modes): Fields {
    ["modes", Flag(m.bracketedPaste), Flag(m.mouseTracking), Flag(m.focusReporting), Flag(m.applicationKeypad),
     Flag(m.applicationCursor), Flag(m.origin), Flag(m.wraparound), PrintNat(TrackingCode(m.trackingMode)),
     PrintNat(FormatCode(m.mouseFormat))]
  }

  function ColorsLine(c: Colors): Fields {
    ["colors", PrintNat(c.fg), PrintNat(c.bg), PrintNat(c.cursor), Flag(c.cursorSet), HexOf(PaletteBytes(c.palette))]
  }

  function StyleLine(s: Style): Fields {
    ["style", PrintNat(s.fg), PrintNat(s.bg), PrintNat(s.underline), PrintNat(s.flags)]
  }

  function StyleLines(ss: seq<Style>): seq<Fields> {
    if ss == [] then [] else [StyleLine(ss[0])] + StyleLines(ss[1..])
  }

  function HyperlinkLine(h: Hyperlink): Fields {
    ["hyperlink", PrintNat(h.id), HexText(h.uri), HexField(h.osc8Id), HexField(h.params)]
  }

  function HyperlinkLines(hs: seq<Hyperlink>): seq<Fields> {
    if hs == [] then [] else [HyperlinkLine(hs[0])] + HyperlinkLines(hs[1..])
  }

  function RunLine(row: nat, r: CellRun): Fields {
    ["run", PrintNat(row), HexText(r.text), HexOf(r.widths), PrintNat(r.styleId), PrintNat(r.flags),
     PrintNat(r.hyperlinkId), PrintNat(ContentCode(r.content))]
  }

  function RunLines(row: nat, rs: seq<CellRun>): seq<Fields> {
    if rs == [] then [] else [RunLine(row, rs[0])] + RunLines(row, rs[1..])
  }

  function RowLine(row: nat, text: string): Fields {
    ["row", PrintNat(row), HexText(text)]
  }

  function MetaLine(c: CachedSurface, row: nat): Fields
    requires RowsFit(c) && row < c.view.rows
  {
    ["rowmeta", PrintNat(row), PrintNat(PromptCode(c.view.screen.prompts[row])), Flag(c.view.screen.dirty[row]),
     Flag(c.view.screen.kitty[row]), PrintNat(c.stateHashes[row]), PrintNat(c.dirtyHashes[row])]
  }

  function RowLines(c: CachedSurface, row: nat): seq<Fields>
    requires RowsFit(c) && row < c.view.rows
  {
    [RowLine(row, c.view.screen.lines[row])] + [MetaLine(c, row)] + RunLines(row, c.view.screen.runs[row])
  }

  function RowsLines(c: CachedSurface, row: nat): seq<Fields>
    requires RowsFit(c) && row <= c.view.rows
    decreases c.view.rows - row
  {
    if row == c.view.rows then [] else RowLines(c, row) + RowsLines(c, row + 1)
  }

  function FixedLines(v: View): seq<Fields> {
    [CursorLine(v.cursor)] + [ModesLine(v.modes)] + [["title", HexText(v.title)]] + [["pwd", HexText(v.cwd)]]
    + [ColorsLine(v.colors)]
  }

  function BodyLines(c: CachedSurface): seq<Fields>
    requires RowsFit(c)
  {
    FixedLines(c.view) + StyleLines(c.view.styles) + HyperlinkLines(c.hyperlinks) + RowsLines(c, 0)
  }

  function SurfaceLines(c: CachedSurface): seq<Fields>
    requires RowsFit(c)
  {
    [SurfaceLine(c.view)] + (BodyLines(c) + [["end"]])
  }

  function SurfacesLines(cs: seq<CachedSurface>): seq<Fields>
    requires forall i | 0 <= i < |cs| :: RowsFit(cs[i])
  {
    if cs == [] then [] else SurfaceLines(cs[0]) + SurfacesLines(cs[1..])
  }

  function AllLines(s: AttachState): seq<Fields>
    requires StateFits(s)
  {
    ScopeLines(s.scope) + ScrollbackLines(s.scrollbacks) + SurfacesLines(s.surfaces)
  }

  function Encode(s: AttachState): string
    requires StateFits(s)
  {
    Line(HEADER) + Unlines(AllLines(s))
  }

  // ---------- reading one line ----------

  datatype Keyword =
    | CursorKey | ModesKey | TitleKey | PwdKey | ColorsKey | StyleKey | HyperlinkKey | RowKey | MetaKey | RunKey
    | EndKey | ScopeKey | ScrollbackKey | SurfaceKey | OtherKey

  function KeywordOf(s: string): Keyword {
    if s == "cursor" then CursorKey else if s == "modes" then ModesKey else if s == "title" then TitleKey
    else if s == "pwd" then PwdKey else if s == "colors" then ColorsKey else if s == "style" then StyleKey
    else if s == "hyperlink" then HyperlinkKey else if s == "row" then RowKey else if s == "rowmeta" then MetaKey
    else if s == "run" then RunKey else if s == "end" then EndKey else if s == "scope" then ScopeKey
    else if s == "scrollback" then ScrollbackKey else if s == "surface" then SurfaceKey else OtherKey
  }

  lemma BodyKeywords()
    ensures KeywordOf("cursor") == CursorKey && KeywordOf("modes") == ModesKey && KeywordOf("title") == TitleKey
    ensures KeywordOf("pwd") == PwdKey && KeywordOf("colors") == ColorsKey && KeywordOf("style") == StyleKey
  {
    assert "cursor"[1] == 'u' && "colors"[1] == 'o' && "modes"[0] == 'm' && "title"[0] == 't' && "style"[0] == 's';
    assert "pwd"[0] == 'p';
  }

  lemma RowKeywords()
    ensures KeywordOf("hyperlink") == HyperlinkKey && KeywordOf("row") == RowKey && KeywordOf("rowmeta") == MetaKey
    ensures KeywordOf("run") == RunKey && KeywordOf("end") == EndKey
  {
    assert "row"[1] == 'o' && "run"[1] == 'u' && "end"[0] == 'e' && "rowmeta"[0] == 'r' && "pwd"[0] == 'p';
  }

  lemma FileKeywords()
    ensures KeywordOf("scope") == ScopeKey && KeywordOf("scrollback") == ScrollbackKey
    ensures KeywordOf("surface") == SurfaceKey
  {
    assert "scope"[1] == 'c' && "style"[1] == 't' && "surface"[0] == 's' && "rowmeta"[0] == 'r';
    assert "modes"[0] == 'm' && "title"[0] == 't';
  }

  lemma Keywords()
    ensures KeywordOf("cursor") == CursorKey && KeywordOf("modes") == ModesKey && KeywordOf("title") == TitleKey
    ensures KeywordOf("pwd") == PwdKey && KeywordOf("colors") == ColorsKey && KeywordOf("style") == StyleKey
    ensures KeywordOf("hyperlink") == HyperlinkKey && KeywordOf("row") == RowKey && KeywordOf("rowmeta") == MetaKey
    ensures KeywordOf("run") == RunKey && KeywordOf("end") == EndKey && KeywordOf("scope") == ScopeKey
    ensures KeywordOf("scrollback") == ScrollbackKey && KeywordOf("surface") == SurfaceKey
  {
    hide KeywordOf;
    BodyKeywords();
    RowKeywords();
    FileKeywords();
  }

  function ReadCursor(f: Fields): Option<Option<Cursor>> {
    if |f| == 2 && f[1] == "none" then Some(None)
    else if |f| == 5 || |f| == 6 then
      var row, col, visible, shape := ParseU32(f[1]), ParseU32(f[2]), ParseBool(f[3]), ParseShape(f[4]);
      var blinking := if |f| == 6 then ParseBool(f[5]) else Some(true);
      if row.None? || col.None? || visible.None? || shape.None? || blinking.None? then None
      else Some(Some(Cursor(row.value, col.value, visible.value, shape.value, blinking.value)))
    else None
  }

  function ReadModes(f: Fields): Option<Modes> {
    if |f| == 8 || |f| == 10 then
      var a, b, c, d := ParseBool(f[1]), ParseBool(f[2]), ParseBool(f[3]), ParseBool(f[4]);
      var e, o, w := ParseBool(f[5]), ParseBool(f[6]), ParseBool(f[7]);
      var tracking := if |f| == 10 then ParseTracking(f[8]) else Some(NoTracking);
      var format := if |f| == 10 then ParseFormat(f[9]) else Some(X10Format);
      if a.None? || b.None? || c.None? || d.None? || e.None? || o.None? || w.None? || tracking.None? || format.None?
      then None
      else Some(Modes(a.value, b.value, c.value, d.value, e.value, o.value, w.value, tracking.value, format.value))
    else None
  }

  // Old files do not say whether the cursor colour is set; then any nonzero colour counts as set.
  function ReadColors(f: Fields): Option<Colors> {
    if |f| == 5 || |f| == 6 then
      var fg, bg, cursor := ParseU32(f[1]), ParseU32(f[2]), ParseU32(f[3]);
      var palette := DecodePalette(f[|f| - 1]);
      if fg.None? || bg.None? || cursor.None? || palette.None? then None
      else
        var isSet := if |f| == 6 then ParseBool(f[4]) else Some(cursor.value != 0);
        if isSet.None? then None else Some(Colors(fg.value, bg.value, cursor.value, isSet.value, palette.value))
    else None
  }

  function ReadStyle(f: Fields): Option<Style> {
    if |f| != 5 then None
    else
      var fg, bg, underline, flags := ParseU32(f[1]), ParseU32(f[2]), ParseU32(f[3]), ParseU32(f[4]);
      if fg.None? || bg.None? || underline.None? || flags.None? then None
      else Some(Style(fg.value, bg.value, underline.value, flags.value))
  }

  function ReadHyperlink(f: Fields): Option<Hyperlink> {
    if |f| != 5 then None
    else
      var id, uri, osc8, params := ParseU32(f[1]), FromHexText(f[2]), FromHexField(f[3]), FromHexField(f[4]);
      if id.None? || uri.None? || osc8.None? || params.None? then None
      else Some(Hyperlink(id.value, uri.value, osc8.value, params.value))
  }

  function ReadRun(f: Fields): Option<CellRun> {
    if |f| < 6 || |f| > 8 then None
    else
      var text, widths, style, flags := FromHexText(f[2]), FromHex(f[3]), ParseU32(f[4]), ParseU32(f[5]);
      var link := if |f| >= 7 then ParseU32(f[6]) else Some(0);
      var content := if |f| == 8 then ParseContent(f[7]) else Some(OutputCell);
      if text.None? || widths.None? || style.None? || flags.None? || link.None? || content.None? then None
      else Some(CellRun(text.value, widths.value, style.value, flags.value, link.value, content.value))
  }

  // A row index (`usize`) inside the surface.
  function ReadRow(f: Fields, rows: nat): (r: Option<nat>)
    ensures r.Some? ==> r.value < rows
  {
    if |f| < 2 then None
    else
      var row := ParseU64(f[1]);
      if row.Some? && row.value < rows then Some(row.value) else None
  }

  // What a `rowmeta` line sets; fields missing from older files stay as they are.
  datatype Meta = Meta(prompt: RowPrompt, dirty: bool, kitty: bool, stateHash: u64, dirtyHash: u64)

  function ReadMeta(f: Fields, now: Meta): Option<Meta> {
    if |f| < 3 || |f| > 7 then None
    else
      var prompt := ParsePrompt(f[2]);
      var dirty := if |f| >= 4 then ParseBool(f[3]) else Some(now.dirty);
      var kitty := if |f| >= 5 then ParseBool(f[4]) else Some(now.kitty);
      var stateHash := if |f| >= 6 then ParseU64(f[5]) else Some(now.stateHash);
      var dirtyHash := if |f| == 7 then ParseU64(f[6]) else Some(now.dirtyHash);
      if prompt.None? || dirty.None? || kitty.None? || stateHash.None? || dirtyHash.None? then None
      else Some(Meta(prompt.value, dirty.value, kitty.value, stateHash.value, dirtyHash.value))
  }

  function WithScreen(c: CachedSurface, screen: Rows): CachedSurface {
    c.(view := c.view.(screen := screen))
  }

  function PutText(c: CachedSurface, row: nat, text: string): (d: CachedSurface)
    requires RowsFit(c) && row < c.view.rows
    ensures RowsFit(d) && d.view.rows == c.view.rows
  {
    WithScreen(c, c.view.screen.(lines := c.view.screen.lines[row := text]))
  }

  function MetaAt(c: CachedSurface, row: nat): Meta
    requires RowsFit(c) && row < c.view.rows
  {
    Meta(c.view.screen.prompts[row], c.view.screen.dirty[row], c.view.screen.kitty[row], c.stateHashes[row],
         c.dirtyHashes[row])
  }

  function PutMeta(c: CachedSurface, row: nat, m: Meta): (d: CachedSurface)
    requires RowsFit(c) && row < c.view.rows
    ensures RowsFit(d) && d.view.rows == c.view.rows
  {
    var s := c.view.screen;
    WithScreen(c, s.(prompts := s.prompts[row := m.prompt], dirty := s.dirty[row := m.dirty],
                     kitty := s.kitty[row := m.kitty]))
      .(stateHashes := c.stateHashes[row := m.stateHash], dirtyHashes := c.dirtyHashes[row := m.dirtyHash])
  }

  function AddRuns(c: CachedSurface, row: nat, rs: seq<CellRun>): (d: CachedSurface)
    requires RowsFit(c) && row < c.view.rows
    ensures RowsFit(d) && d.view.rows == c.view.rows
  {
    WithScreen(c, c.view.screen.(runs := c.view.screen.runs[row := c.view.screen.runs[row] + rs]))
  }

  /** One line of a surface's body; `None` is an invalid line. */
  function ReadBodyLine(c: CachedSurface, f: Fields): (r: Option<CachedSurface>)
    requires RowsFit(c)
    ensures r.Some? ==> RowsFit(r.value) && r.value.view.rows == c.view.rows
  {
    if f == [] then None
    else
      match KeywordOf(f[0])
      case CursorKey =>
        var r := ReadCursor(f);
        if r.None? then None else Some(c.(view := c.view.(cursor := r.value)))
      case ModesKey =>
        var r := ReadModes(f);
        if r.None? then None else Some(c.(view := c.view.(modes := r.value)))
      case TitleKey =>
        var r := if |f| == 2 then FromHexText(f[1]) else None;
        if r.None? then None else Some(c.(view := c.view.(title := r.value)))
      case PwdKey =>
        var r := if |f| == 2 then FromHexText(f[1]) else None;
        if r.None? then None else Some(c.(view := c.view.(cwd := r.value)))
      case ColorsKey =>
        var r := ReadColors(f);
        if r.None? then None else Some(c.(view := c.view.(colors := r.value)))
      case StyleKey =>
        var r := ReadStyle(f);
        if r.None? then None else Some(c.(view := c.view.(styles := c.view.styles + [r.value])))
      case HyperlinkKey =>
        var r := ReadHyperlink(f);
        if r.None? then None else Some(c.(hyperlinks := c.hyperlinks + [r.value]))
      case RowKey =>
        var row := ReadRow(f, c.view.rows);
        var r := if |f| == 3 then FromHexText(f[2]) else None;
        if row.None? || r.None? then None else Some(PutText(c, row.value, r.value))
      case MetaKey =>
        var row := ReadRow(f, c.view.rows);
        if row.None? then None
        else
          var r := ReadMeta(f, MetaAt(c, row.value));
          if r.None? then None else Some(PutMeta(c, row.value, r.value))
      case RunKey =>
        var row := ReadRow(f, c.view.rows);
        var r := ReadRun(f);
        if row.None? || r.None? then None else Some(AddRuns(c, row.value, [r.value]))
      case _ => None
  }

  // ---------- reading surfaces and files ----------

  function ReadSurfaceLine(f: Fields): (r: Option<CachedSurface>)
    ensures r.Some? ==> RowsFit(r.value)
  {
    if |f| != 5 && |f| != 6 then None
    else
      var paneId, version, cols, rows := FromHexText(f[1]), ParseU64(f[2]), ParseU32(f[3]), ParseU32(f[4]);
      var surface := if |f| == 6 then ParseSurface(f[5]) else Some(Main);
      if paneId.None? || version.None? || cols.None? || rows.None? || surface.None? then None
      else Some(BlankSurface(paneId.value, version.value, cols.value, rows.value, surface.value))
  }

  function BlankSurface(paneId: string, version: u64, cols: u32, rows: u32, surface: SurfaceKind): (c: CachedSurface)
    ensures RowsFit(c)
  {
    var zeros := seq(rows, _ => 0);
    CachedSurface(
      View(paneId, version, cols, rows, surface, None, DEFAULT_MODES, "", "", DEFAULT_COLORS, [], BlankRows(rows)),
      [], zeros, zeros)
  }

  /** The surface read up to its `end` line, and how many lines that took. */
  function ReadBody(ls: seq<Fields>, c: CachedSurface): (r: Option<(CachedSurface, nat)>)
    requires RowsFit(c)
    ensures r.Some? ==> RowsFit(r.value.0) && r.value.1 <= |ls|
    decreases |ls|
  {
    if ls == [] then None
    else if ls[0] == ["end"] then Some((c, 1))
    else
      var next := ReadBodyLine(c, ls[0]);
      if next.None? then None
      else
        var r := ReadBody(ls[1..], next.value);
        if r.None? then None else Some((r.value.0, r.value.1 + 1))
  }

  predicate HyperlinkTableValid(hs: seq<Hyperlink>) {
    && (forall i | 0 <= i < |hs| :: hs[i].id != 0 && hs[i].uri != "")
    && (forall i, j | 0 <= i < j < |hs| :: hs[i].id != hs[j].id)
  }

  predicate HyperlinkKnown(id: u32, hs: seq<Hyperlink>) {
    id == 0 || exists i | 0 <= i < |hs| :: hs[i].id == id
  }

  predicate CachedIdsKnown(rows: seq<seq<CellRun>>, styles: seq<Style>, hs: seq<Hyperlink>) {
    && (forall i | 0 <= i < |rows| :: StyleIdsKnown(rows[i], styles))
    && (forall i, j | 0 <= i < |rows| && 0 <= j < |rows[i]| :: HyperlinkKnown(rows[i][j].hyperlinkId, hs))
  }

  // `row_runs_for_text`: rows whose runs are missing or do not spell the text become one plain run.
  function RunsForText(lines: seq<string>, runs: seq<seq<CellRun>>): (r: seq<seq<CellRun>>)
    requires |runs| == |lines|
    ensures |r| == |runs|
  {
    seq(|lines|, i requires 0 <= i < |lines| =>
      if runs[i] == [] || RunText(runs[i]) != lines[i] then [PlainRun(lines[i])] else runs[i])
  }

  /** What decoding makes of a surface's runs and styles. */
  function Canonical(c: CachedSurface): (d: CachedSurface)
    requires RowsFit(c)
    ensures RowsFit(d)
  {
    var screen := c.view.screen;
    c.(view := c.view.(styles := StylesOrDefault(c.view.styles),
                       screen := screen.(runs := RunsForText(screen.lines, screen.runs))))
  }

  predicate Usable(c: CachedSurface) {
    HyperlinkTableValid(c.hyperlinks) && CachedIdsKnown(c.view.screen.runs, c.view.styles, c.hyperlinks)
  }

  function Finish(c: CachedSurface): (r: Option<CachedSurface>)
    requires RowsFit(c)
  {
    if Usable(Canonical(c)) then Some(Canonical(c)) else None
  }

  function ReadScope(f: Fields): Option<Scope> {
    if |f| == 4 then
      var dev, ino := ParseU64(f[2]), ParseU64(f[3]);
      if dev.None? || ino.None? then None else Some(Scope(dev.value, ino.value, 0, 0))
    else if |f| == 6 then
      var dev, ino, ctime, nsec := ParseU64(f[2]), ParseU64(f[3]), ParseI64(f[4]), ParseI64(f[5]);
      if dev.None? || ino.None? || ctime.None? || nsec.None? then None
      else Some(Scope(dev.value, ino.value, ctime.value, nsec.value))
    else None
  }

  function ReadScrollback(f: Fields): Option<CachedScrollback> {
    if |f| != 6 then None
    else
      var paneId, version := FromHexText(f[1]), ParseU64(f[2]);
      var start, count, total := ParseU64(f[3]), ParseU32(f[4]), ParseU64(f[5]);
      if paneId.None? || version.None? || start.None? || count.None? || total.None? || start.value == 0
         || count.value == 0 then None
      else Some(CachedScrollback(paneId.value, version.value, start.value, count.value, total.value))
  }

  function ReadLines(ls: seq<Fields>, s: AttachState): Option<AttachState>
    decreases |ls|
  {
    if ls == [] then Some(s)
    else
      var f := ls[0];
      if f == [] then None
      else
        match KeywordOf(f[0])
        case ScopeKey =>
          var r := if |f| >= 2 && f[1] == "socket" then ReadScope(f) else None;
          if r.None? then None else ReadLines(ls[1..], s.(scope := Some(r.value)))
        case ScrollbackKey =>
          var r := ReadScrollback(f);
          if r.None? then None else ReadLines(ls[1..], s.(scrollbacks := s.scrollbacks + [r.value]))
        case SurfaceKey =>
          var r := ReadSurface(ls);
          if r.None? then None else ReadLines(ls[r.value.1..], s.(surfaces := s.surfaces + [r.value.0]))
        case _ => None
  }

  // A whole surface: its head line, its body and the final checks.
  function ReadSurface(ls: seq<Fields>): (r: Option<(CachedSurface, nat)>)
    requires ls != []
    ensures r.Some? ==> 1 <= r.value.1 <= |ls|
  {
    var head := ReadSurfaceLine(ls[0]);
    if head.None? then None
    else
      var body := ReadBody(ls[1..], head.value);
      if body.None? then None
      else
        var done := Finish(body.value.0);
        if done.None? then None else Some((done.value, 1 + body.value.1))
  }

  predicate KnownHeader(line: string) {
    || line == "NMUX_CLIENT_STATE 1" || line == "NMUX_CLIENT_STATE 2" || line == "NMUX_CLIENT_STATE 3"
    || line == "NMUX_CLIENT_STATE 4" || line == "NMUX_CLIENT_STATE 5" || line == "NMUX_CLIENT_STATE 6"
    || line == "NMUX_CLIENT_STATE 7" || line == "NMUX_CLIENT_STATE 8"
  }

  /** `ClientAttachState::decode`; `None` is the error for invalid data. */
  function Decode(text: string): Option<AttachState> {
    var lines := Lines(text);
    if lines == [] || !KnownHeader(lines[0]) then None
    else ReadLines(SplitAll(lines[1..]), AttachState(None, [], []))
  }
}
