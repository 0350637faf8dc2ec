/** Reading back what was written: for every client state, exactly which states survive and in what form. */
module StateRoundTrip {
  import opened Types
  import opened Text
  import opened StateText
  import opened Mirror
  import opened ClientState

  // ---------- single lines ----------

  lemma ViewWordsClean()
    ensures Clean("cursor") && Clean("none") && Clean("modes") && Clean("title") && Clean("pwd") && Clean("colors")
  {
  }

  lemma RowWordsClean()
    ensures Clean("style") && Clean("hyperlink") && Clean("row") && Clean("rowmeta") && Clean("run") && Clean("end")
  {
  }

  lemma FileWordsClean()
    ensures Clean("scope") && Clean("socket") && Clean("scrollback") && Clean("surface")
  {
  }

  lemma KeywordsClean()
    ensures Clean("cursor") && Clean("none") && Clean("modes") && Clean("title") && Clean("pwd") && Clean("colors")
    ensures Clean("style") && Clean("hyperlink") && Clean("row") && Clean("rowmeta") && Clean("run") && Clean("end")
    ensures Clean("scope") && Clean("socket") && Clean("scrollback") && Clean("surface")
  {
    hide Clean;
    ViewWordsClean();
    RowWordsClean();
    FileWordsClean();
  }

  lemma ScopeReads(s: Scope)
    ensures ReadScope(ScopeLine(s)) == Some(s) && CleanLine(ScopeLine(s))
  {
    hide FromHexText, HexText, FromHexField, HexField, FromHex, HexOf, PaletteBytes, DecodePalette;
    hide ParseU64, ParseU32, ParseI64, PrintNat, PrintInt, ParseBool, Flag, Clean;
    hide ParseSurface, ParseShape, ParsePrompt, ParseContent, ParseTracking, ParseFormat;
    KeywordsClean();
    NumbersRoundTrip(s.dev);
    NumbersRoundTrip(s.ino);
    I64RoundTrip(s.ctime);
    I64RoundTrip(s.ctimeNsec);
  }

  lemma ScrollbackReads(s: CachedScrollback)
    ensures ReadScrollback(ScrollbackLine(s)) == if s.startLine >= 1 && s.lineCount >= 1 then Some(s) else None
    ensures CleanLine(ScrollbackLine(s))
  {
    hide FromHexText, HexText, FromHexField, HexField, FromHex, HexOf, PaletteBytes, DecodePalette;
    hide ParseU64, ParseU32, ParseI64, PrintNat, PrintInt, ParseBool, Flag, Clean;
    hide ParseSurface, ParseShape, ParsePrompt, ParseContent, ParseTracking, ParseFormat;
    KeywordsClean();
    HexTextRoundTrip(s.paneId);
    NumbersRoundTrip(s.version);
    NumbersRoundTrip(s.startLine);
    NumbersRoundTrip(s.lineCount);
    NumbersRoundTrip(s.totalLines);
  }

  lemma SurfaceReads(v: View)
    ensures ReadSurfaceLine(SurfaceLine(v)) == Some(BlankSurface(v.paneId, v.version, v.cols, v.rows, v.surface))
    ensures CleanLine(SurfaceLine(v))
  {
    hide FromHexText, HexText, FromHexField, HexField, FromHex, HexOf, PaletteBytes, DecodePalette;
    hide ParseU64, ParseU32, ParseI64, PrintNat, PrintInt, ParseBool, Flag, Clean;
    hide ParseSurface, ParseShape, ParsePrompt, ParseContent, ParseTracking, ParseFormat;
    KeywordsClean();
    HexTextRoundTrip(v.paneId);
    NumbersRoundTrip(v.version);
    NumbersRoundTrip(v.cols);
    NumbersRoundTrip(v.rows);
    NumbersRoundTrip(SurfaceCode(v.surface));
    EnumsRoundTrip(v.surface, Block, NoPrompt, OutputCell, NoTracking, X10Format);
  }

  lemma CursorReads(c: Option<Cursor>)
    ensures ReadCursor(CursorLine(c)) == Some(c) && CleanLine(CursorLine(c))
  {
    hide FromHexText, HexText, FromHexField, HexField, FromHex, HexOf, PaletteBytes, DecodePalette;
    hide ParseU64, ParseU32, ParseI64, PrintNat, PrintInt, ParseBool, Flag, Clean;
    hide ParseSurface, ParseShape, ParsePrompt, ParseContent, ParseTracking, ParseFormat;
    KeywordsClean();
    if c.Some? {
      NumbersRoundTrip(c.value.row);
      NumbersRoundTrip(c.value.col);
      FlagRoundTrip(c.value.visible);
      FlagRoundTrip(c.value.blinking);
      NumbersRoundTrip(ShapeCode(c.value.shape));
      EnumsRoundTrip(Main, c.value.shape, NoPrompt, OutputCell, NoTracking, X10Format);
    }
  }

  lemma ModesReads(m: Modes)
    ensures ReadModes(ModesLine(m)) == Some(m) && CleanLine(ModesLine(m))
  {
    hide FromHexText, HexText, FromHexField, HexField, FromHex, HexOf, PaletteBytes, DecodePalette;
    hide ParseU64, ParseU32, ParseI64, PrintNat, PrintInt, ParseBool, Flag, Clean;
    hide ParseSurface, ParseShape, ParsePrompt, ParseContent, ParseTracking, ParseFormat;
    KeywordsClean();
    NumbersRoundTrip(TrackingCode(m.trackingMode));
    NumbersRoundTrip(FormatCode(m.mouseFormat));
    EnumsRoundTrip(Main, Block, NoPrompt, OutputCell, m.trackingMode, m.mouseFormat);
    forall b: bool ensures ParseBool(Flag(b)) == Some(b) && Clean(Flag(b)) {
      FlagRoundTrip(b);
    }
  }

  lemma ColorsReads(c: Colors)
    ensures ReadColors(ColorsLine(c)) == Some(c) && CleanLine(ColorsLine(c))
  {
    hide FromHexText, HexText, FromHexField, HexField, FromHex, HexOf, PaletteBytes, DecodePalette;
    hide ParseU64, ParseU32, ParseI64, PrintNat, PrintInt, ParseBool, Flag, Clean;
    hide ParseSurface, ParseShape, ParsePrompt, ParseContent, ParseTracking, ParseFormat;
    KeywordsClean();
    NumbersRoundTrip(c.fg);
    NumbersRoundTrip(c.bg);
    NumbersRoundTrip(c.cursor);
    FlagRoundTrip(c.cursorSet);
    PaletteTextRoundTrip(c.palette);
  }

  lemma StyleReads(s: Style)
    ensures ReadStyle(StyleLine(s)) == Some(s) && CleanLine(StyleLine(s))
  {
    hide FromHexText, HexText, FromHexField, HexField, FromHex, HexOf, PaletteBytes, DecodePalette;
    hide ParseU64, ParseU32, ParseI64, PrintNat, PrintInt, ParseBool, Flag, Clean;
    hide ParseSurface, ParseShape, ParsePrompt, ParseContent, ParseTracking, ParseFormat;
    KeywordsClean();
    NumbersRoundTrip(s.fg);
    NumbersRoundTrip(s.bg);
    NumbersRoundTrip(s.underline);
    NumbersRoundTrip(s.flags);
  }

  lemma HyperlinkReads(h: Hyperlink)
    ensures ReadHyperlink(HyperlinkLine(h)) == Some(h) && CleanLine(HyperlinkLine(h))
  {
    hide FromHexText, HexText, FromHexField, HexField, FromHex, HexOf, PaletteBytes, DecodePalette;
    hide ParseU64, ParseU32, ParseI64, PrintNat, PrintInt, ParseBool, Flag, Clean;
    hide ParseSurface, ParseShape, ParsePrompt, ParseContent, ParseTracking, ParseFormat;
    KeywordsClean();
    NumbersRoundTrip(h.id);
    HexTextRoundTrip(h.uri);
    HexTextRoundTrip(h.osc8Id);
    HexTextRoundTrip(h.params);
  }

  lemma RunReads(row: nat, r: CellRun)
    ensures ReadRun(RunLine(row, r)) == Some(r) && CleanLine(RunLine(row, r))
  {
    hide FromHexText, HexText, FromHexField, HexField, FromHex, HexOf, PaletteBytes, DecodePalette;
    hide ParseU64, ParseU32, ParseI64, PrintNat, PrintInt, ParseBool, Flag, Clean;
    hide ParseSurface, ParseShape, ParsePrompt, ParseContent, ParseTracking, ParseFormat;
    KeywordsClean();
    NumbersRoundTrip(row);
    HexTextRoundTrip(r.text);
    HexRoundTrip(r.widths);
    NumbersRoundTrip(r.styleId);
    NumbersRoundTrip(r.flags);
    NumbersRoundTrip(r.hyperlinkId);
    NumbersRoundTrip(ContentCode(r.content));
    EnumsRoundTrip(Main, Block, NoPrompt, r.content, NoTracking, X10Format);
  }

  lemma RowReads(f: Fields, row: nat, rows: nat)
    requires row < rows <= U64_MAX && |f| >= 2 && f[1] == PrintNat(row)
    ensures ReadRow(f, rows) == Some(row) && Clean(f[1])
  {
    NumbersRoundTrip(row);
  }

  lemma MetaReads(c: CachedSurface, row: nat, now: Meta)
    requires RowsFit(c) && row < c.view.rows
    ensures ReadMeta(MetaLine(c, row), now) == Some(MetaAt(c, row)) && CleanLine(MetaLine(c, row))
  {
    hide FromHexText, HexText, FromHexField, HexField, FromHex, HexOf, PaletteBytes, DecodePalette;
    hide ParseU64, ParseU32, ParseI64, PrintNat, PrintInt, ParseBool, Flag, Clean;
    hide ParseSurface, ParseShape, ParsePrompt, ParseContent, ParseTracking, ParseFormat;
    KeywordsClean();
    var m := MetaAt(c, row);
    NumbersRoundTrip(row);
    NumbersRoundTrip(PromptCode(m.prompt));
    EnumsRoundTrip(Main, Block, m.prompt, OutputCell, NoTracking, X10Format);
    FlagRoundTrip(m.dirty);
    FlagRoundTrip(m.kitty);
    NumbersRoundTrip(m.stateHash);
    NumbersRoundTrip(m.dirtyHash);
  }

  // ---------- lines of older versions ----------

  /** Lines of older formats are prefixes of today's; what they do not say gets its default. */
  lemma OlderScopeReads(s: Scope)
    ensures ReadScope(ScopeLine(s)[..4]) == Some(s.(ctime := 0, ctimeNsec := 0))
  {
    hide FromHexText, HexText, FromHex, HexOf, ParseU64, ParseU32, ParseI64, PrintNat, PrintInt, ParseBool, Flag;
    hide ParseSurface, ParseShape, ParsePrompt, ParseContent, ParseTracking, ParseFormat;
    NumbersRoundTrip(s.dev);
    NumbersRoundTrip(s.ino);
  }

  lemma OlderSurfaceReads(v: View)
    ensures ReadSurfaceLine(SurfaceLine(v)[..5]) == Some(BlankSurface(v.paneId, v.version, v.cols, v.rows, Main))
  {
    hide FromHexText, HexText, FromHex, HexOf, ParseU64, ParseU32, ParseI64, PrintNat, PrintInt, ParseBool, Flag;
    hide ParseSurface, ParseShape, ParsePrompt, ParseContent, ParseTracking, ParseFormat;
    HexTextRoundTrip(v.paneId);
    NumbersRoundTrip(v.version);
    NumbersRoundTrip(v.cols);
    NumbersRoundTrip(v.rows);
  }

  lemma OlderCursorReads(c: Cursor)
    ensures ReadCursor(CursorLine(Some(c))[..5]) == Some(Some(c.(blinking := true)))
  {
    hide FromHexText, HexText, FromHex, HexOf, ParseU64, ParseU32, ParseI64, PrintNat, PrintInt, ParseBool, Flag;
    hide ParseSurface, ParseShape, ParsePrompt, ParseContent, ParseTracking, ParseFormat;
    NumbersRoundTrip(c.row);
    NumbersRoundTrip(c.col);
    FlagRoundTrip(c.visible);
    EnumsRoundTrip(Main, c.shape, NoPrompt, OutputCell, NoTracking, X10Format);
  }

  lemma OlderModesRead(m: Modes)
    ensures ReadModes(ModesLine(m)[..8]) == Some(m.(trackingMode := NoTracking, mouseFormat := X10Format))
  {
    hide FromHexText, HexText, FromHex, HexOf, ParseU64, ParseU32, ParseI64, PrintNat, PrintInt, ParseBool, Flag;
    hide ParseSurface, ParseShape, ParsePrompt, ParseContent, ParseTracking, ParseFormat;
    forall b: bool ensures ParseBool(Flag(b)) == Some(b) {
      FlagRoundTrip(b);
    }
  }

  // The flag for a set cursor colour came later, before the palette.
  lemma OlderColorsRead(c: Colors)
    ensures ReadColors(ColorsLine(c)[..4] + ColorsLine(c)[5..]) == Some(c.(cursorSet := c.cursor != 0))
  {
    hide FromHexText, HexText, FromHex, HexOf, ParseU64, ParseU32, ParseI64, PrintNat, PrintInt, ParseBool, Flag;
    hide ParseSurface, ParseShape, ParsePrompt, ParseContent, ParseTracking, ParseFormat;
    hide PaletteBytes, DecodePalette;
    NumbersRoundTrip(c.fg);
    NumbersRoundTrip(c.bg);
    NumbersRoundTrip(c.cursor);
    PaletteTextRoundTrip(c.palette);
  }

  lemma OlderRunsRead(row: nat, r: CellRun)
    ensures ReadRun(RunLine(row, r)[..7]) == Some(r.(content := OutputCell))
    ensures ReadRun(RunLine(row, r)[..6]) == Some(r.(content := OutputCell, hyperlinkId := 0))
  {
    hide FromHexText, HexText, FromHex, HexOf, ParseU64, ParseU32, ParseI64, PrintNat, PrintInt, ParseBool, Flag;
    hide ParseSurface, ParseShape, ParsePrompt, ParseContent, ParseTracking, ParseFormat;
    HexTextRoundTrip(r.text);
    HexRoundTrip(r.widths);
    NumbersRoundTrip(r.styleId);
    NumbersRoundTrip(r.flags);
    NumbersRoundTrip(r.hyperlinkId);
  }

  lemma OlderMetaReads(c: CachedSurface, row: nat, now: Meta, fields: nat)
    requires RowsFit(c) && row < c.view.rows && 3 <= fields <= 7
    ensures var m := MetaAt(c, row);
            ReadMeta(MetaLine(c, row)[..fields], now)
            == Some(Meta(m.prompt, if fields >= 4 then m.dirty else now.dirty,
                         if fields >= 5 then m.kitty else now.kitty,
                         if fields >= 6 then m.stateHash else now.stateHash,
                         if fields >= 7 then m.dirtyHash else now.dirtyHash))
  {
    hide FromHexText, HexText, FromHex, HexOf, ParseU64, ParseU32, ParseI64, PrintNat, PrintInt, ParseBool, Flag;
    hide ParseSurface, ParseShape, ParsePrompt, ParseContent, ParseTracking, ParseFormat;
    var m := MetaAt(c, row);
    EnumsRoundTrip(Main, Block, m.prompt, OutputCell, NoTracking, X10Format);
    FlagRoundTrip(m.dirty);
    FlagRoundTrip(m.kitty);
    NumbersRoundTrip(m.stateHash);
    NumbersRoundTrip(m.dirtyHash);
    hide MetaAt;
    var line, cut := MetaLine(c, row), MetaLine(c, row)[..fields];
    assert |cut| == fields && forall i | 0 <= i < fields :: cut[i] == line[i];
    assert cut[2] == PrintNat(PromptCode(m.prompt)) by { MetaFields(c, row); }
    assert fields >= 4 ==> cut[3] == Flag(m.dirty) by { MetaFields(c, row); }
    assert fields >= 5 ==> cut[4] == Flag(m.kitty) by { MetaFields(c, row); }
    assert fields >= 6 ==> cut[5] == PrintNat(m.stateHash) by { MetaFields(c, row); }
    assert fields >= 7 ==> cut[6] == PrintNat(m.dirtyHash) by { MetaFields(c, row); }
  }

  lemma MetaFields(c: CachedSurface, row: nat)
    requires RowsFit(c) && row < c.view.rows
    ensures var m := MetaAt(c, row); var line := MetaLine(c, row);
            && |line| == 7 && line[2] == PrintNat(PromptCode(m.prompt)) && line[3] == Flag(m.dirty)
            && line[4] == Flag(m.kitty) && line[5] == PrintNat(m.stateHash) && line[6] == PrintNat(m.dirtyHash)
  {
  }

  // ---------- bodies ----------

  // The surface after all the lines of a body.
  function Fold(c: CachedSurface, ls: seq<Fields>): (r: Option<CachedSurface>)
    requires RowsFit(c)
    ensures r.Some? ==> RowsFit(r.value) && r.value.view.rows == c.view.rows
    decreases |ls|
  {
    if ls == [] then Some(c)
    else
      var next := ReadBodyLine(c, ls[0]);
      if next.None? then None else Fold(next.value, ls[1..])
  }

  lemma {:induction false} FoldJoin(c: CachedSurface, a: seq<Fields>, b: seq<Fields>)
    requires RowsFit(c) && Fold(c, a).Some?
    ensures Fold(c, a + b) == Fold(Fold(c, a).value, b)
    decreases |a|
  {
    if a == [] {
      assert a + b == b;
    } else {
      assert (a + b)[1..] == a[1..] + b;
      FoldJoin(ReadBodyLine(c, a[0]).value, a[1..], b);
    }
  }

  lemma FoldOne(c: CachedSurface, f: Fields)
    requires RowsFit(c)
    ensures Fold(c, [f]) == ReadBodyLine(c, f)
  {
    assert [f][1..] == [];
  }

  lemma FoldFirst(c: CachedSurface, d: CachedSurface, f: Fields, ls: seq<Fields>)
    requires RowsFit(c) && RowsFit(d) && ReadBodyLine(c, f) == Some(d)
    ensures Fold(c, [f] + ls) == Fold(d, ls)
  {
    hide ReadBodyLine;
    assert ([f] + ls)[1..] == ls;
  }

  lemma AddFirst<T>(a: seq<T>, xs: seq<T>)
    requires xs != []
    ensures a + [xs[0]] + xs[1..] == a + xs
  {
  }

  lemma AddNothing<T>(a: seq<T>)
    ensures a + [] == a && [] + a == a
  {
  }

  lemma EndIsNoBodyLine(c: CachedSurface, f: Fields)
    requires RowsFit(c) && ReadBodyLine(c, f).Some?
    ensures f != ["end"]
  {
    Keywords();
  }

  /** A body followed by `end` is read to exactly there. */
  lemma {:induction false} BodyReads(c: CachedSurface, ls: seq<Fields>, rest: seq<Fields>)
    requires RowsFit(c) && Fold(c, ls).Some?
    ensures ReadBody(ls + ([["end"]] + rest), c) == Some((Fold(c, ls).value, |ls| + 1))
    decreases |ls|
  {
    hide ReadBodyLine;
    if ls == [] {
      assert ls + ([["end"]] + rest) == [["end"]] + rest;
    } else {
      EndIsNoBodyLine(c, ls[0]);
      assert (ls + ([["end"]] + rest))[1..] == ls[1..] + ([["end"]] + rest);
      BodyReads(ReadBodyLine(c, ls[0]).value, ls[1..], rest);
    }
  }

  // The lines before the tables.
  function WithFixed(c: CachedSurface, v: View): CachedSurface {
    c.(view := c.view.(cursor := v.cursor, modes := v.modes, title := v.title, cwd := v.cwd, colors := v.colors))
  }

  lemma FoldTwo(c: CachedSurface, d: CachedSurface, ls: seq<Fields>, f: Fields)
    requires RowsFit(c) && RowsFit(d) && Fold(c, ls) == Some(d)
    ensures Fold(c, ls + [f]) == ReadBodyLine(d, f)
  {
    FoldJoin(c, ls, [f]);
    FoldOne(d, f);
  }

  lemma CursorAndModes(c: CachedSurface, v: View)
    requires RowsFit(c)
    ensures Fold(c, [CursorLine(v.cursor)] + [ModesLine(v.modes)])
            == Some(c.(view := c.view.(cursor := v.cursor, modes := v.modes)))
  {
    hide KeywordOf, ReadCursor, ReadModes, PrintNat, Flag, ShapeCode, TrackingCode, FormatCode;
    Keywords();
    CursorReads(v.cursor);
    ModesReads(v.modes);
    FoldOne(c, CursorLine(v.cursor));
    var c1 := c.(view := c.view.(cursor := v.cursor));
    FoldTwo(c, c1, [CursorLine(v.cursor)], ModesLine(v.modes));
  }

  lemma TitleReads(c: CachedSurface, title: string)
    requires RowsFit(c)
    ensures ReadBodyLine(c, ["title", HexText(title)]) == Some(c.(view := c.view.(title := title)))
  {
    hide KeywordOf, FromHexText, HexText;
    Keywords();
    HexTextRoundTrip(title);
  }

  lemma PwdReads(c: CachedSurface, cwd: string)
    requires RowsFit(c)
    ensures ReadBodyLine(c, ["pwd", HexText(cwd)]) == Some(c.(view := c.view.(cwd := cwd)))
  {
    hide KeywordOf, FromHexText, HexText;
    Keywords();
    HexTextRoundTrip(cwd);
  }

  lemma ColorsBodyReads(c: CachedSurface, colors: Colors)
    requires RowsFit(c)
    ensures ReadBodyLine(c, ColorsLine(colors)) == Some(c.(view := c.view.(colors := colors)))
  {
    hide KeywordOf, ReadColors, PrintNat, Flag, HexOf, PaletteBytes;
    Keywords();
    ColorsReads(colors);
  }

  lemma FixedReads(c: CachedSurface, v: View)
    requires RowsFit(c)
    ensures Fold(c, FixedLines(v)) == Some(WithFixed(c, v))
  {
    hide ReadBodyLine, CursorLine, ModesLine, ColorsLine, HexText;
    var l2 := [CursorLine(v.cursor)] + [ModesLine(v.modes)];
    var c2 := c.(view := c.view.(cursor := v.cursor, modes := v.modes));
    CursorAndModes(c, v);
    var c3 := c2.(view := c2.view.(title := v.title));
    TitleReads(c2, v.title);
    FoldTwo(c, c2, l2, ["title", HexText(v.title)]);
    var c4 := c3.(view := c3.view.(cwd := v.cwd));
    PwdReads(c3, v.cwd);
    FoldTwo(c, c3, l2 + [["title", HexText(v.title)]], ["pwd", HexText(v.cwd)]);
    ColorsBodyReads(c4, v.colors);
    FoldTwo(c, c4, l2 + [["title", HexText(v.title)]] + [["pwd", HexText(v.cwd)]], ColorsLine(v.colors));
  }

  lemma StyleBodyReads(c: CachedSurface, style: Style)
    requires RowsFit(c)
    ensures ReadBodyLine(c, StyleLine(style)) == Some(c.(view := c.view.(styles := c.view.styles + [style])))
  {
    hide KeywordOf, ReadStyle, PrintNat;
    Keywords();
    StyleReads(style);
  }

  lemma {:induction false} StylesRead(c: CachedSurface, ss: seq<Style>)
    requires RowsFit(c)
    ensures Fold(c, StyleLines(ss)) == Some(c.(view := c.view.(styles := c.view.styles + ss)))
    decreases |ss|
  {
    hide ReadBodyLine, StyleLine;
    if ss == [] {
      AddNothing(c.view.styles);
    } else {
      hide Fold;
      var d := c.(view := c.view.(styles := c.view.styles + [ss[0]]));
      StyleBodyReads(c, ss[0]);
      FoldFirst(c, d, StyleLine(ss[0]), StyleLines(ss[1..]));
      StylesRead(d, ss[1..]);
      AddFirst(c.view.styles, ss);
    }
  }

  lemma HyperlinkBodyReads(c: CachedSurface, h: Hyperlink)
    requires RowsFit(c)
    ensures ReadBodyLine(c, HyperlinkLine(h)) == Some(c.(hyperlinks := c.hyperlinks + [h]))
  {
    hide KeywordOf, ReadHyperlink, PrintNat, HexText, HexField;
    Keywords();
    HyperlinkReads(h);
  }

  lemma {:induction false} HyperlinksRead(c: CachedSurface, hs: seq<Hyperlink>)
    requires RowsFit(c)
    ensures Fold(c, HyperlinkLines(hs)) == Some(c.(hyperlinks := c.hyperlinks + hs))
    decreases |hs|
  {
    hide ReadBodyLine, HyperlinkLine;
    if hs == [] {
      AddNothing(c.hyperlinks);
    } else {
      hide Fold;
      var d := c.(hyperlinks := c.hyperlinks + [hs[0]]);
      HyperlinkBodyReads(c, hs[0]);
      FoldFirst(c, d, HyperlinkLine(hs[0]), HyperlinkLines(hs[1..]));
      HyperlinksRead(d, hs[1..]);
      AddFirst(c.hyperlinks, hs);
    }
  }

  // ---------- rows ----------

  lemma RunBodyReads(c: CachedSurface, row: nat, r: CellRun)
    requires RowsFit(c) && row < c.view.rows
    ensures ReadBodyLine(c, RunLine(row, r)) == Some(AddRuns(c, row, [r]))
  {
    hide KeywordOf, ReadRun, ReadRow, PrintNat, HexText, HexOf, AddRuns;
    Keywords();
    RunReads(row, r);
    RowReads(RunLine(row, r), row, c.view.rows);
  }

  lemma AddRunsTwice(c: CachedSurface, row: nat, a: seq<CellRun>, b: seq<CellRun>)
    requires RowsFit(c) && row < c.view.rows
    ensures AddRuns(AddRuns(c, row, a), row, b) == AddRuns(c, row, a + b)
  {
    var runs := c.view.screen.runs;
    assert runs[row] + a + b == runs[row] + (a + b);
    assert runs[row := runs[row] + a][row := runs[row] + a + b] == runs[row := runs[row] + (a + b)];
  }

  lemma AddNone(c: CachedSurface, row: nat)
    requires RowsFit(c) && row < c.view.rows
    ensures AddRuns(c, row, []) == c
  {
    var runs := c.view.screen.runs;
    assert runs[row] + [] == runs[row];
    assert runs[row := runs[row]] == runs;
  }

  lemma {:induction false} RunsRead(c: CachedSurface, row: nat, rs: seq<CellRun>)
    requires RowsFit(c) && row < c.view.rows
    ensures Fold(c, RunLines(row, rs)) == Some(AddRuns(c, row, rs))
    decreases |rs|
  {
    hide ReadBodyLine, AddRuns, RunLine;
    if rs == [] {
      AddNone(c, row);
    } else {
      RunBodyReads(c, row, rs[0]);
      RunsRead(AddRuns(c, row, [rs[0]]), row, rs[1..]);
      AddRunsTwice(c, row, [rs[0]], rs[1..]);
      assert RunLines(row, rs)[1..] == RunLines(row, rs[1..]);
      assert [rs[0]] + rs[1..] == rs;
    }
  }

  function TakeRow(d: CachedSurface, c: CachedSurface, row: nat): (e: CachedSurface)
    requires RowsFit(c) && RowsFit(d) && row < c.view.rows == d.view.rows
    ensures RowsFit(e) && e.view.rows == d.view.rows
  {
    AddRuns(PutMeta(PutText(d, row, c.view.screen.lines[row]), row, MetaAt(c, row)), row, c.view.screen.runs[row])
  }

  lemma TextReads(d: CachedSurface, row: nat, text: string)
    requires RowsFit(d) && row < d.view.rows
    ensures ReadBodyLine(d, RowLine(row, text)) == Some(PutText(d, row, text))
  {
    hide KeywordOf, ReadRow, FromHexText, HexText, PrintNat, PutText;
    Keywords();
    HexTextRoundTrip(text);
    RowReads(RowLine(row, text), row, d.view.rows);
  }

  lemma MetaBodyReads(d: CachedSurface, c: CachedSurface, row: nat)
    requires RowsFit(c) && RowsFit(d) && row < c.view.rows == d.view.rows
    ensures ReadBodyLine(d, MetaLine(c, row)) == Some(PutMeta(d, row, MetaAt(c, row)))
  {
    hide KeywordOf, ReadMeta, ReadRow, PrintNat, PutMeta, MetaAt, Flag, PromptCode;
    Keywords();
    MetaReads(c, row, MetaAt(d, row));
    RowReads(MetaLine(c, row), row, d.view.rows);
  }

  lemma RowBodyReads(d: CachedSurface, c: CachedSurface, row: nat)
    requires RowsFit(c) && RowsFit(d) && row < c.view.rows == d.view.rows
    ensures Fold(d, RowLines(c, row)) == Some(TakeRow(d, c, row))
  {
    hide Fold, ReadBodyLine, PutText, PutMeta, AddRuns, MetaAt, RowLine, MetaLine, RunLines;
    var text := RowLine(row, c.view.screen.lines[row]);
    var d1 := PutText(d, row, c.view.screen.lines[row]);
    var d2 := PutMeta(d1, row, MetaAt(c, row));
    TextReads(d, row, c.view.screen.lines[row]);
    FoldOne(d, text);
    MetaBodyReads(d1, c, row);
    FoldTwo(d, d1, [text], MetaLine(c, row));
    RunsRead(d2, row, c.view.screen.runs[row]);
    FoldJoin(d, [text] + [MetaLine(c, row)], RunLines(row, c.view.screen.runs[row]));
  }

  function TakeRows(d: CachedSurface, c: CachedSurface, row: nat): (e: CachedSurface)
    requires RowsFit(c) && RowsFit(d) && row <= c.view.rows == d.view.rows
    ensures RowsFit(e) && e.view.rows == d.view.rows
    decreases c.view.rows - row
  {
    if row == c.view.rows then d else TakeRows(TakeRow(d, c, row), c, row + 1)
  }

  lemma {:induction false} RowsRead(d: CachedSurface, c: CachedSurface, row: nat)
    requires RowsFit(c) && RowsFit(d) && row <= c.view.rows == d.view.rows
    ensures Fold(d, RowsLines(c, row)) == Some(TakeRows(d, c, row))
    decreases c.view.rows - row
  {
    hide ReadBodyLine, TakeRow, RowLines;
    if row < c.view.rows {
      RowBodyReads(d, c, row);
      FoldJoin(d, RowLines(c, row), RowsLines(c, row + 1));
      RowsRead(TakeRow(d, c, row), c, row + 1);
    }
  }

  // Everything one row holds.
  datatype RowData = RowData(text: string, runs: seq<CellRun>, meta: Meta)

  function RowAt(c: CachedSurface, row: nat): RowData
    requires RowsFit(c) && row < c.view.rows
  {
    RowData(c.view.screen.lines[row], c.view.screen.runs[row], MetaAt(c, row))
  }

  // The surface without its rows.
  function Frameless(c: CachedSurface): CachedSurface {
    WithScreen(c, Rows([], [], [], [], [])).(stateHashes := [], dirtyHashes := [])
  }

  lemma TakenRow(d: CachedSurface, c: CachedSurface, row: nat)
    requires RowsFit(c) && RowsFit(d) && row < c.view.rows == d.view.rows && d.view.screen.runs[row] == []
    ensures var e := TakeRow(d, c, row);
            && Frameless(e) == Frameless(d) && RowAt(e, row) == RowAt(c, row)
            && forall i | 0 <= i < d.view.rows && i != row :: RowAt(e, i) == RowAt(d, i)
  {
    assert [] + c.view.screen.runs[row] == c.view.screen.runs[row];
  }

  lemma {:induction false} TakenRows(d: CachedSurface, c: CachedSurface, row: nat)
    requires RowsFit(c) && RowsFit(d) && row <= c.view.rows == d.view.rows
    requires forall i | row <= i < d.view.rows :: RowAt(d, i).runs == []
    ensures var e := TakeRows(d, c, row);
            && Frameless(e) == Frameless(d)
            && (forall i | 0 <= i < row :: RowAt(e, i) == RowAt(d, i))
            && (forall i | row <= i < d.view.rows :: RowAt(e, i) == RowAt(c, i))
    decreases c.view.rows - row
  {
    if row < c.view.rows {
      assert RowAt(d, row).runs == [];
      TakenRow(d, c, row);
      TakenRows(TakeRow(d, c, row), c, row + 1);
    }
  }

  lemma SameRowsSameSurface(a: CachedSurface, b: CachedSurface)
    requires RowsFit(a) && RowsFit(b) && Frameless(a) == Frameless(b)
    requires forall i | 0 <= i < a.view.rows :: RowAt(a, i) == RowAt(b, i)
    ensures a == b
  {
    assert a.view.rows == Frameless(a).view.rows == b.view.rows;
    forall i | 0 <= i < a.view.rows
      ensures a.view.screen.lines[i] == b.view.screen.lines[i] && a.view.screen.runs[i] == b.view.screen.runs[i]
      ensures MetaAt(a, i) == MetaAt(b, i)
    {
      assert RowAt(a, i) == RowAt(b, i);
    }
    SameMetas(a, b);
    assert a.view.screen.lines == b.view.screen.lines && a.view.screen.runs == b.view.screen.runs;
    assert a.view.screen == b.view.screen;
    assert a.view == Frameless(a).view.(screen := a.view.screen);
    assert b.view == Frameless(b).view.(screen := b.view.screen);
    assert a.hyperlinks == Frameless(a).hyperlinks && b.hyperlinks == Frameless(b).hyperlinks;
  }

  lemma SameMetas(a: CachedSurface, b: CachedSurface)
    requires RowsFit(a) && RowsFit(b) && a.view.rows == b.view.rows
    requires forall i | 0 <= i < a.view.rows :: MetaAt(a, i) == MetaAt(b, i)
    ensures a.view.screen.prompts == b.view.screen.prompts && a.view.screen.dirty == b.view.screen.dirty
    ensures a.view.screen.kitty == b.view.screen.kitty
    ensures a.stateHashes == b.stateHashes && a.dirtyHashes == b.dirtyHashes
  {
    forall i | 0 <= i < a.view.rows
      ensures a.view.screen.prompts[i] == b.view.screen.prompts[i] && a.view.screen.dirty[i] == b.view.screen.dirty[i]
      ensures a.view.screen.kitty[i] == b.view.screen.kitty[i]
      ensures a.stateHashes[i] == b.stateHashes[i] && a.dirtyHashes[i] == b.dirtyHashes[i]
    {
      assert MetaAt(a, i) == MetaAt(b, i);
    }
  }

  // ---------- one surface ----------

  function BlankFor(v: View): (c: CachedSurface)
    ensures RowsFit(c) && c.view.rows == v.rows
  {
    BlankSurface(v.paneId, v.version, v.cols, v.rows, v.surface)
  }

  lemma RowsRestore(d: CachedSurface, c: CachedSurface)
    requires RowsFit(c) && RowsFit(d) && c.view.rows == d.view.rows && Frameless(d) == Frameless(c)
    requires forall i | 0 <= i < d.view.rows :: d.view.screen.runs[i] == []
    ensures Fold(d, RowsLines(c, 0)) == Some(c)
  {
    RowsRead(d, c, 0);
    TakenRows(d, c, 0);
    SameRowsSameSurface(TakeRows(d, c, 0), c);
  }

  // The surface with everything but its rows.
  function Tables(c: CachedSurface): (d: CachedSurface)
    ensures RowsFit(d) && d.view.rows == c.view.rows
  {
    var d := WithFixed(BlankFor(c.view), c.view);
    d.(view := d.view.(styles := c.view.styles), hyperlinks := c.hyperlinks)
  }

  lemma TablesRead(c: CachedSurface)
    ensures Fold(BlankFor(c.view), FixedLines(c.view) + StyleLines(c.view.styles) + HyperlinkLines(c.hyperlinks))
            == Some(Tables(c))
  {
    hide Fold, FixedLines, StyleLines, HyperlinkLines;
    var d := BlankFor(c.view);
    var d1 := WithFixed(d, c.view);
    FixedReads(d, c.view);
    FoldJoin(d, FixedLines(c.view), StyleLines(c.view.styles));
    StylesRead(d1, c.view.styles);
    assert d1.view.styles + c.view.styles == c.view.styles;
    var d2 := d1.(view := d1.view.(styles := c.view.styles));
    FoldJoin(d, FixedLines(c.view) + StyleLines(c.view.styles), HyperlinkLines(c.hyperlinks));
    HyperlinksRead(d2, c.hyperlinks);
    assert d2.hyperlinks + c.hyperlinks == c.hyperlinks;
  }

  lemma BodyRestores(c: CachedSurface)
    requires RowsFit(c)
    ensures Fold(BlankFor(c.view), BodyLines(c)) == Some(c)
  {
    TablesRead(c);
    FoldJoin(BlankFor(c.view),
             FixedLines(c.view) + StyleLines(c.view.styles) + HyperlinkLines(c.hyperlinks), RowsLines(c, 0));
    RowsRestore(Tables(c), c);
  }

  /** A written surface reads back in canonical form, or not at all when its ids do not check out. */
  lemma SurfaceRestores(c: CachedSurface, rest: seq<Fields>)
    requires RowsFit(c)
    ensures ReadSurface(SurfaceLines(c) + rest)
            == if Usable(Canonical(c)) then Some((Canonical(c), |SurfaceLines(c)|)) else None
  {
    hide Usable, Canonical, BodyLines, ReadSurfaceLine, SurfaceLine, Fold, ReadBody, BlankSurface;
    SurfaceReads(c.view);
    BodyRestores(c);
    var ls := SurfaceLines(c) + rest;
    BodyReads(BlankFor(c.view), BodyLines(c), rest);
    assert ls[0] == SurfaceLine(c.view);
    assert ls[1..] == BodyLines(c) + ([["end"]] + rest);
  }

  // ---------- whole states ----------

  function CanonicalAll(cs: seq<CachedSurface>): (ds: seq<CachedSurface>)
    requires forall i | 0 <= i < |cs| :: RowsFit(cs[i])
    ensures |ds| == |cs| && forall i | 0 <= i < |ds| :: ds[i] == Canonical(cs[i])
  {
    if cs == [] then [] else [Canonical(cs[0])] + CanonicalAll(cs[1..])
  }

  function CanonicalState(s: AttachState): AttachState
    requires StateFits(s)
  {
    s.(surfaces := CanonicalAll(s.surfaces))
  }

  ghost predicate AllUsable(cs: seq<CachedSurface>)
    requires forall i | 0 <= i < |cs| :: RowsFit(cs[i])
  {
    forall i | 0 <= i < |cs| :: Usable(Canonical(cs[i]))
  }

  predicate RangesValid(ss: seq<CachedScrollback>) {
    forall i | 0 <= i < |ss| :: ss[i].startLine >= 1 && ss[i].lineCount >= 1
  }

  lemma UsableSplit(cs: seq<CachedSurface>)
    requires cs != [] && forall i | 0 <= i < |cs| :: RowsFit(cs[i])
    ensures AllUsable(cs) <==> Usable(Canonical(cs[0])) && AllUsable(cs[1..])
  {
    hide Usable, Canonical;
    assert forall i | 0 <= i < |cs[1..]| :: cs[1..][i] == cs[i + 1];
    assert forall i | 1 <= i < |cs| :: cs[i] == cs[1..][i - 1];
  }

  lemma SurfaceFirst(s: AttachState, c: CachedSurface, rest: seq<Fields>)
    requires RowsFit(c)
    ensures ReadLines(SurfaceLines(c) + rest, s)
            == if Usable(Canonical(c)) then ReadLines(rest, s.(surfaces := s.surfaces + [Canonical(c)])) else None
  {
    hide KeywordOf, ReadSurface, Usable, Canonical, HexText, PrintNat, BodyLines;
    Keywords();
    SurfaceRestores(c, rest);
    var ls := SurfaceLines(c) + rest;
    assert ls[0] == SurfaceLine(c.view) && ls[|SurfaceLines(c)|..] == rest;
  }

  lemma {:induction false} SurfacesRead(s: AttachState, cs: seq<CachedSurface>)
    requires forall i | 0 <= i < |cs| :: RowsFit(cs[i])
    ensures ReadLines(SurfacesLines(cs), s)
            == if AllUsable(cs) then Some(s.(surfaces := s.surfaces + CanonicalAll(cs))) else None
    decreases |cs|
  {
    hide Usable, Canonical, SurfaceLines;
    if cs == [] {
      AddNothing(s.surfaces);
    } else {
      hide ReadLines, AllUsable;
      var first := Canonical(cs[0]);
      SurfaceFirst(s, cs[0], SurfacesLines(cs[1..]));
      UsableSplit(cs);
      SurfacesRead(s.(surfaces := s.surfaces + [first]), cs[1..]);
      Regroup(s.surfaces, [first], CanonicalAll(cs[1..]));
    }
  }

  lemma RangesSplit(ss: seq<CachedScrollback>)
    requires ss != []
    ensures RangesValid(ss) <==> ss[0].startLine >= 1 && ss[0].lineCount >= 1 && RangesValid(ss[1..])
  {
    assert forall i | 1 <= i < |ss| :: ss[i] == ss[1..][i - 1];
  }

  lemma ScrollbackFirst(s: AttachState, c: CachedScrollback, rest: seq<Fields>)
    ensures ReadLines([ScrollbackLine(c)] + rest, s)
            == if c.startLine >= 1 && c.lineCount >= 1 then ReadLines(rest, s.(scrollbacks := s.scrollbacks + [c]))
               else None
  {
    hide KeywordOf, ReadScrollback, HexText, PrintNat;
    Keywords();
    ScrollbackReads(c);
    assert ([ScrollbackLine(c)] + rest)[1..] == rest;
  }

  lemma {:induction false} ScrollbacksRead(s: AttachState, ss: seq<CachedScrollback>, rest: seq<Fields>)
    ensures ReadLines(ScrollbackLines(ss) + rest, s)
            == if RangesValid(ss) then ReadLines(rest, s.(scrollbacks := s.scrollbacks + ss)) else None
    decreases |ss|
  {
    hide ReadLines, ScrollbackLine;
    if ss == [] {
      AddNothing(rest);
      AddNothing(s.scrollbacks);
    } else {
      hide RangesValid;
      Regroup([ScrollbackLine(ss[0])], ScrollbackLines(ss[1..]), rest);
      ScrollbackFirst(s, ss[0], ScrollbackLines(ss[1..]) + rest);
      RangesSplit(ss);
      ScrollbacksRead(s.(scrollbacks := s.scrollbacks + [ss[0]]), ss[1..], rest);
      AddFirst(s.scrollbacks, ss);
    }
  }

  lemma ScopeReadsFirst(scope: Option<Scope>, rest: seq<Fields>)
    ensures ReadLines(ScopeLines(scope) + rest, AttachState(None, [], []))
            == ReadLines(rest, AttachState(scope, [], []))
  {
    hide ReadSurface, ReadScrollback;
    hide KeywordOf, ReadScope, PrintNat, PrintInt;
    if scope.Some? {
      Keywords();
      ScopeReads(scope.value);
      var ls := ScopeLines(scope) + rest;
      assert ls[0] == ScopeLine(scope.value) && ls[1..] == rest;
    } else {
      assert ScopeLines(scope) + rest == rest;
    }
  }

  lemma AllLinesRead(s: AttachState)
    requires StateFits(s)
    ensures ReadLines(AllLines(s), AttachState(None, [], []))
            == if RangesValid(s.scrollbacks) && AllUsable(s.surfaces) then Some(CanonicalState(s)) else None
  {
    hide ReadLines, ScopeLines, ScrollbackLines, SurfacesLines, CanonicalAll, AllUsable, RangesValid;
    var scrolls, surfaces := ScrollbackLines(s.scrollbacks), SurfacesLines(s.surfaces);
    Regroup(ScopeLines(s.scope), scrolls, surfaces);
    ScopeReadsFirst(s.scope, scrolls + surfaces);
    ScrollbacksRead(AttachState(s.scope, [], []), s.scrollbacks, surfaces);
    AddNothing(s.scrollbacks);
    SurfacesRead(AttachState(s.scope, [], s.scrollbacks), s.surfaces);
    AddNothing(CanonicalAll(s.surfaces));
  }

  // ---------- every written line is clean ----------

  lemma CleanOne(f: Fields)
    requires CleanLine(f)
    ensures CleanLines([f])
  {
  }

  lemma CleanJoin(a: seq<Fields>, b: seq<Fields>)
    requires CleanLines(a) && CleanLines(b)
    ensures CleanLines(a + b)
  {
  }

  lemma {:induction false} StylesClean(ss: seq<Style>)
    ensures CleanLines(StyleLines(ss))
  {
    hide StyleLine, CleanLine;
    if ss != [] {
      StyleReads(ss[0]);
      StylesClean(ss[1..]);
    }
  }

  lemma {:induction false} HyperlinksClean(hs: seq<Hyperlink>)
    ensures CleanLines(HyperlinkLines(hs))
  {
    hide HyperlinkLine, CleanLine;
    if hs != [] {
      HyperlinkReads(hs[0]);
      HyperlinksClean(hs[1..]);
    }
  }

  lemma {:induction false} RunsClean(row: nat, rs: seq<CellRun>)
    ensures CleanLines(RunLines(row, rs))
  {
    hide RunLine, CleanLine;
    if rs != [] {
      RunReads(row, rs[0]);
      RunsClean(row, rs[1..]);
    }
  }

  lemma RowClean(c: CachedSurface, row: nat)
    requires RowsFit(c) && row < c.view.rows
    ensures CleanLines(RowLines(c, row))
  {
    hide MetaLine, MetaAt, RunLines, CleanLines;
    var text, runs := c.view.screen.lines[row], c.view.screen.runs[row];
    TextClean(row, text);
    CleanOne(RowLine(row, text));
    MetaReads(c, row, MetaAt(c, row));
    CleanOne(MetaLine(c, row));
    CleanJoin([RowLine(row, text)], [MetaLine(c, row)]);
    RunsClean(row, runs);
    CleanJoin([RowLine(row, text)] + [MetaLine(c, row)], RunLines(row, runs));
  }

  lemma TextClean(row: nat, text: string)
    ensures CleanLine(RowLine(row, text))
  {
    hide PrintNat, HexText, Clean;
    KeywordsClean();
    NumbersRoundTrip(row);
    HexTextRoundTrip(text);
  }

  lemma {:induction false} RowsClean(c: CachedSurface, row: nat)
    requires RowsFit(c) && row <= c.view.rows
    ensures CleanLines(RowsLines(c, row))
    decreases c.view.rows - row
  {
    hide RowLines, CleanLine;
    if row < c.view.rows {
      RowClean(c, row);
      RowsClean(c, row + 1);
      CleanJoin(RowLines(c, row), RowsLines(c, row + 1));
    }
  }

  lemma WordClean(word: string, text: string)
    requires Clean(word)
    ensures CleanLines([[word, HexText(text)]])
  {
    hide HexText, Clean;
    HexTextRoundTrip(text);
    assert CleanLine([word, HexText(text)]);
  }

  lemma FixedClean(v: View)
    ensures CleanLines(FixedLines(v))
  {
    hide CursorLine, ModesLine, ColorsLine, HexText, Clean, CleanLines;
    KeywordsClean();
    CursorReads(v.cursor);
    CleanOne(CursorLine(v.cursor));
    ModesReads(v.modes);
    CleanOne(ModesLine(v.modes));
    CleanJoin([CursorLine(v.cursor)], [ModesLine(v.modes)]);
    var two := [CursorLine(v.cursor)] + [ModesLine(v.modes)];
    WordClean("title", v.title);
    CleanJoin(two, [["title", HexText(v.title)]]);
    WordClean("pwd", v.cwd);
    CleanJoin(two + [["title", HexText(v.title)]], [["pwd", HexText(v.cwd)]]);
    ColorsReads(v.colors);
    CleanOne(ColorsLine(v.colors));
    CleanJoin(two + [["title", HexText(v.title)]] + [["pwd", HexText(v.cwd)]], [ColorsLine(v.colors)]);
  }

  lemma EndClean()
    ensures CleanLines([["end"]])
  {
    KeywordsClean();
    CleanOne(["end"]);
  }

  lemma SurfaceClean(c: CachedSurface)
    requires RowsFit(c)
    ensures CleanLines(SurfaceLines(c))
  {
    hide SurfaceLine, FixedLines, StyleLines, HyperlinkLines, RowsLines, CleanLine;
    SurfaceReads(c.view);
    FixedClean(c.view);
    StylesClean(c.view.styles);
    HyperlinksClean(c.hyperlinks);
    RowsClean(c, 0);
    CleanJoin(FixedLines(c.view), StyleLines(c.view.styles));
    CleanJoin(FixedLines(c.view) + StyleLines(c.view.styles), HyperlinkLines(c.hyperlinks));
    CleanJoin(FixedLines(c.view) + StyleLines(c.view.styles) + HyperlinkLines(c.hyperlinks), RowsLines(c, 0));
    EndClean();
    CleanJoin(BodyLines(c), [["end"]]);
    CleanJoin([SurfaceLine(c.view)], BodyLines(c) + [["end"]]);
  }

  lemma {:induction false} SurfacesClean(cs: seq<CachedSurface>)
    requires forall i | 0 <= i < |cs| :: RowsFit(cs[i])
    ensures CleanLines(SurfacesLines(cs))
  {
    hide SurfaceLines;
    if cs != [] {
      SurfaceClean(cs[0]);
      SurfacesClean(cs[1..]);
      CleanJoin(SurfaceLines(cs[0]), SurfacesLines(cs[1..]));
    }
  }

  lemma {:induction false} ScrollbacksClean(ss: seq<CachedScrollback>)
    ensures CleanLines(ScrollbackLines(ss))
  {
    hide ScrollbackLine, CleanLine;
    if ss != [] {
      ScrollbackReads(ss[0]);
      ScrollbacksClean(ss[1..]);
    }
  }

  lemma AllClean(s: AttachState)
    requires StateFits(s)
    ensures CleanLines(AllLines(s))
  {
    hide ScopeLine, ScrollbackLines, SurfacesLines, CleanLine;
    if s.scope.Some? {
      ScopeReads(s.scope.value);
    }
    ScrollbacksClean(s.scrollbacks);
    SurfacesClean(s.surfaces);
    CleanJoin(ScopeLines(s.scope), ScrollbackLines(s.scrollbacks));
    CleanJoin(ScopeLines(s.scope) + ScrollbackLines(s.scrollbacks), SurfacesLines(s.surfaces));
  }

  lemma HeaderReads(rest: string)
    ensures var lines := Lines(Line(HEADER) + rest);
            lines != [] && KnownHeader(lines[0]) && lines[1..] == Lines(rest)
  {
    LineFirst(HEADER, rest);
    assert HEADER[1..] == ["8"];
    assert Join(HEADER) == "NMUX_CLIENT_STATE" + " " + "8";
    assert Join(HEADER) == "NMUX_CLIENT_STATE 8";
  }

  /** Every state whose scrollback ranges and ids are valid reads back in canonical form; all others are refused. */
  lemma RoundTrip(s: AttachState)
    requires StateFits(s)
    ensures Decode(Encode(s))
            == if RangesValid(s.scrollbacks) && AllUsable(s.surfaces) then Some(CanonicalState(s)) else None
  {
    hide ReadLines, AllLines, KnownHeader, Unlines, Lines, Line;
    HeaderReads(Unlines(AllLines(s)));
    AllClean(s);
    LinesOfUnlines(AllLines(s));
    AllLinesRead(s);
  }

  // A row whose runs are kept, because they spell its text.
  predicate RowKept(c: CachedSurface, row: nat)
    requires RowsFit(c) && row < c.view.rows
  {
    c.view.screen.runs[row] != [] && RunText(c.view.screen.runs[row]) == c.view.screen.lines[row]
  }

  // A run without style or hyperlink of its own, or with ones that the tables list.
  ghost predicate RunListed(r: CellRun, c: CachedSurface) {
    && (r.styleId == 0 || r.styleId < |c.view.styles|)
    && (r.hyperlinkId == 0 || exists i | 0 <= i < |c.hyperlinks| :: c.hyperlinks[i].id == r.hyperlinkId)
  }

  ghost predicate TablesInOrder(c: CachedSurface)
    requires RowsFit(c)
  {
    && (forall i | 0 <= i < |c.hyperlinks| :: c.hyperlinks[i].id != 0 && c.hyperlinks[i].uri != "")
    && (forall i, j | 0 <= i < j < |c.hyperlinks| :: c.hyperlinks[i].id != c.hyperlinks[j].id)
    && (forall row | 0 <= row < c.view.rows && RowKept(c, row) ::
          forall j | 0 <= j < |c.view.screen.runs[row]| :: RunListed(c.view.screen.runs[row][j], c))
  }

  lemma RowUsable(c: CachedSurface, row: nat)
    requires RowsFit(c) && row < c.view.rows
    ensures var d := Canonical(c); var rs := d.view.screen.runs[row];
            (StyleIdsKnown(rs, d.view.styles)
             && forall j | 0 <= j < |rs| :: HyperlinkKnown(rs[j].hyperlinkId, d.hyperlinks))
            <==> (RowKept(c, row) ==>
                    forall j | 0 <= j < |c.view.screen.runs[row]| :: RunListed(c.view.screen.runs[row][j], c))
  {
    var d := Canonical(c);
    var rs := d.view.screen.runs[row];
    forall j | 0 <= j < |rs|
      ensures rs[j].styleId < Max(|d.view.styles|, 1) && HyperlinkKnown(rs[j].hyperlinkId, d.hyperlinks)
              <==> RunListed(rs[j], c)
    {
    }
    if !RowKept(c, row) {
      assert rs == [PlainRun(c.view.screen.lines[row])];
      assert RunListed(rs[0], c);
    }
  }

  lemma UsableIff(c: CachedSurface)
    requires RowsFit(c)
    ensures Usable(Canonical(c)) <==> TablesInOrder(c)
  {
    hide RowKept, RunListed, StyleIdsKnown, HyperlinkKnown;
    forall row | 0 <= row < c.view.rows
      ensures var d := Canonical(c); var rs := d.view.screen.runs[row];
              (StyleIdsKnown(rs, d.view.styles)
               && forall j | 0 <= j < |rs| :: HyperlinkKnown(rs[j].hyperlinkId, d.hyperlinks))
              <==> (RowKept(c, row) ==>
                      forall j | 0 <= j < |c.view.screen.runs[row]| :: RunListed(c.view.screen.runs[row][j], c))
    {
      RowUsable(c, row);
    }
  }

  /** A written state is read again exactly when no cached range is empty or starts at line zero, and every surface's
      hyperlinks are proper and distinct and its kept runs name listed styles and hyperlinks. */
  lemma ReadsExactly(s: AttachState)
    requires StateFits(s)
    ensures Decode(Encode(s)).Some?
            <==> && (forall i | 0 <= i < |s.scrollbacks| ::
                       s.scrollbacks[i].startLine != 0 && s.scrollbacks[i].lineCount != 0)
                 && forall i | 0 <= i < |s.surfaces| :: TablesInOrder(s.surfaces[i])
  {
    hide Decode, Encode, Canonical, Usable, TablesInOrder;
    RoundTrip(s);
    forall i | 0 <= i < |s.surfaces| ensures Usable(Canonical(s.surfaces[i])) <==> TablesInOrder(s.surfaces[i]) {
      UsableIff(s.surfaces[i]);
    }
  }

  /** And then only rows are rewritten that have no runs or runs that do not spell their text: each becomes one plain
      run of its text. A surface without styles gets the default one. */
  lemma ReadsBackAs(s: AttachState, i: nat)
    requires StateFits(s) && Decode(Encode(s)).Some? && i < |s.surfaces|
    ensures var t := Decode(Encode(s)).value;
            && t.scope == s.scope && t.scrollbacks == s.scrollbacks && |t.surfaces| == |s.surfaces|
            && var (c, d) := (s.surfaces[i], t.surfaces[i]);
               && RowsFit(d) && d.hyperlinks == c.hyperlinks && d.stateHashes == c.stateHashes
               && d.dirtyHashes == c.dirtyHashes
               && d.view == c.view.(styles := d.view.styles, screen := c.view.screen.(runs := d.view.screen.runs))
               && d.view.styles == (if c.view.styles == [] then [Style(0, 0, 0, 0)] else c.view.styles)
               && forall row | 0 <= row < c.view.rows ::
                    d.view.screen.runs[row]
                    == if RowKept(c, row) then c.view.screen.runs[row]
                       else [CellRun(c.view.screen.lines[row], seq(|c.view.screen.lines[row]|, _ => 1), 0, 0, 0,
                                     OutputCell)]
  {
    hide Decode, Encode, Usable;
    RoundTrip(s);
  }

  // ---------- when the round trip is exact ----------

  // Every row has runs that spell its text, and there is a style.
  ghost predicate IsCanonical(c: CachedSurface)
    requires RowsFit(c)
  {
    && c.view.styles != []
    && forall i | 0 <= i < c.view.rows :: RowKept(c, i)
  }

  // A valid surface: usable as it stands.
  ghost predicate Valid(s: AttachState) {
    RangesValid(s.scrollbacks) && forall i | 0 <= i < |s.surfaces| :: Usable(s.surfaces[i])
  }

  // A row that decoding rewrites really changes, except an unstyled plain row, which it rebuilds as it is.
  lemma CanonicalIff(c: CachedSurface)
    requires RowsFit(c)
    ensures Canonical(c) == c <==> IsCanonical(c)
  {
    var rs := RunsForText(c.view.screen.lines, c.view.screen.runs);
    forall i | 0 <= i < c.view.rows
      ensures rs[i] == c.view.screen.runs[i] <==> RowKept(c, i)
    {
      PlainRunText(c.view.screen.lines[i]);
    }
    if IsCanonical(c) {
      assert rs == c.view.screen.runs;
    }
    if Canonical(c) == c {
      assert Canonical(c).view.screen.runs == rs;
      assert c.view.styles == StylesOrDefault(c.view.styles);
    }
  }

  /** `decode(encode(s))` gives back `s` itself exactly when every row's runs spell its text, every surface has a
      style, and the state passes the decoder's checks. */
  lemma ExactRoundTrip(s: AttachState)
    requires StateFits(s)
    ensures Decode(Encode(s)) == Some(s)
            <==> Valid(s) && forall i | 0 <= i < |s.surfaces| :: IsCanonical(s.surfaces[i])
  {
    hide Decode, Encode, Canonical, Usable;
    RoundTrip(s);
    forall i | 0 <= i < |s.surfaces| ensures Canonical(s.surfaces[i]) == s.surfaces[i] <==> IsCanonical(s.surfaces[i]) {
      CanonicalIff(s.surfaces[i]);
    }
    if forall i | 0 <= i < |s.surfaces| :: IsCanonical(s.surfaces[i]) {
      assert CanonicalAll(s.surfaces) == s.surfaces;
    }
  }

  lemma CanonicalTwice(c: CachedSurface)
    requires RowsFit(c)
    ensures Canonical(Canonical(c)) == Canonical(c)
  {
    forall i | 0 <= i < c.view.rows
      ensures RunText(Canonical(c).view.screen.runs[i]) == c.view.screen.lines[i]
              && Canonical(c).view.screen.runs[i] != []
    {
      PlainRunText(c.view.screen.lines[i]);
    }
    CanonicalIff(Canonical(c));
  }

  // What reading establishes of a state.
  ghost predicate ReadRight(s: AttachState) {
    StateFits(s) && Valid(s) && forall i | 0 <= i < |s.surfaces| :: IsCanonical(s.surfaces[i])
  }

  lemma SurfaceReadRight(ls: seq<Fields>)
    requires ls != [] && ReadSurface(ls).Some?
    ensures var c := ReadSurface(ls).value.0; RowsFit(c) && Usable(c) && IsCanonical(c)
  {
    hide Canonical, Usable, ReadSurfaceLine, ReadBody;
    var c := ReadBody(ls[1..], ReadSurfaceLine(ls[0]).value).value.0;
    CanonicalTwice(c);
    CanonicalIff(Canonical(c));
  }

  lemma {:induction false} LinesReadRight(ls: seq<Fields>, s: AttachState)
    requires ReadRight(s) && ReadLines(ls, s).Some?
    ensures ReadRight(ReadLines(ls, s).value)
    decreases |ls|
  {
    hide Usable, IsCanonical, ReadSurface, RowsFit;
    if ls != [] {
      match KeywordOf(ls[0][0])
      case ScopeKey => LinesReadRight(ls[1..], s.(scope := Some(ReadScope(ls[0]).value)));
      case ScrollbackKey =>
        LinesReadRight(ls[1..], s.(scrollbacks := s.scrollbacks + [ReadScrollback(ls[0]).value]));
      case SurfaceKey =>
        var r := ReadSurface(ls).value;
        SurfaceReadRight(ls);
        LinesReadRight(ls[r.1..], s.(surfaces := s.surfaces + [r.0]));
      case _ =>
    }
  }

  /** Whatever was read once, from a file of any version, is written and read exactly from then on. */
  lemma SecondRoundTripExact(text: string)
    requires Decode(text).Some?
    ensures var t := Decode(text).value; StateFits(t) && Decode(Encode(t)) == Some(t)
  {
    hide Encode, ReadLines, SplitAll, Usable, IsCanonical;
    LinesReadRight(SplitAll(Lines(text)[1..]), AttachState(None, [], []));
    ExactRoundTrip(Decode(text).value);
  }

  /** A mirror made from a snapshot that lists no rows is such a state: its blank rows get a run on reading. */
  lemma BlankRowsChange(c: CachedSurface)
    requires RowsFit(c) && c.view.rows > 0 && c.view.screen == BlankRows(c.view.rows)
    ensures Decode(Encode(AttachState(None, [c], []))) != Some(AttachState(None, [c], []))
  {
    hide Decode, Encode, Usable;
    var s := AttachState(None, [c], []);
    ExactRoundTrip(s);
    assert !RowKept(s.surfaces[0], 0);
  }
}
