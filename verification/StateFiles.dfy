/** State files as texts: which first lines are read at all, what an older file means, and what today's look like. */
module StateFiles {
  import opened Types
  import opened Text
  import opened StateText
  import opened Mirror
  import opened ClientState
  import opened StateRoundTrip

  // The first line of a file of format `n`.
  function VersionLine(n: nat): string
    requires 1 <= n <= 8
  {
    "NMUX_CLIENT_STATE " + ["12345678"[n - 1]]
  }

  // One of the eight first lines, possibly with a carriage return before the line feed.
  predicate IsVersion(line: string) {
    exists n | 1 <= n <= 8 :: line == VersionLine(n)
  }

  lemma HeadersAreVersions(line: string)
    ensures KnownHeader(line) <==> IsVersion(line)
  {
    assert VersionLine(1) == "NMUX_CLIENT_STATE 1" && VersionLine(2) == "NMUX_CLIENT_STATE 2";
    assert VersionLine(3) == "NMUX_CLIENT_STATE 3" && VersionLine(4) == "NMUX_CLIENT_STATE 4";
    assert VersionLine(5) == "NMUX_CLIENT_STATE 5" && VersionLine(6) == "NMUX_CLIENT_STATE 6";
    assert VersionLine(7) == "NMUX_CLIENT_STATE 7" && VersionLine(8) == "NMUX_CLIENT_STATE 8";
    if IsVersion(line) {
      var n :| 1 <= n <= 8 && line == VersionLine(n);
      assert n == 1 || n == 2 || n == 3 || n == 4 || n == 5 || n == 6 || n == 7 || n == 8;
    }
  }

  lemma FirstLine(line: string, rest: string)
    requires '\n' !in line
    ensures Lines(line + "\n" + rest) == [StripCr(line)] + Lines(rest)
  {
    var text := line + "\n" + rest;
    FirstIndexAt(text, '\n', |line|);
    assert text[..|line|] == line && text[|line| + 1..] == rest;
  }

  lemma VersionIsOneLine(n: nat)
    requires 1 <= n <= 8
    ensures '\n' !in VersionLine(n) && StripCr(VersionLine(n)) == VersionLine(n) != ""
  {
    assert "12345678"[n - 1] == '1' || "12345678"[n - 1] == '2' || "12345678"[n - 1] == '3' || "12345678"[n - 1] == '4'
        || "12345678"[n - 1] == '5' || "12345678"[n - 1] == '6' || "12345678"[n - 1] == '7' || "12345678"[n - 1] == '8';
    assert forall i | 0 <= i < |"NMUX_CLIENT_STATE "| :: "NMUX_CLIENT_STATE "[i] != '\n';
  }

  /** The rest of a file means the same under each of the eight first lines, and nothing under any other. */
  lemma FirstLineDecides(line: string, rest: string)
    requires '\n' !in line
    ensures Decode(line + "\n" + rest)
            == if IsVersion(StripCr(line)) then Decode("NMUX_CLIENT_STATE 8\n" + rest) else None
  {
    hide ReadLines, KnownHeader, IsVersion;
    FirstLine(line, rest);
    HeadersAreVersions(StripCr(line));
    VersionIsOneLine(8);
    FirstLine(VersionLine(8), rest);
    HeadersAreVersions(VersionLine(8));
    assert IsVersion(VersionLine(8)) by { TodayIsAVersion(); }
    assert VersionLine(8) + "\n" + rest == "NMUX_CLIENT_STATE 8\n" + rest;
    assert (line + "\n" + rest) != "" && Lines(line + "\n" + rest)[1..] == Lines(rest);
    assert Lines(VersionLine(8) + "\n" + rest)[1..] == Lines(rest);
  }

  lemma TodayIsAVersion()
    ensures IsVersion(VersionLine(8))
  {
  }

  /** A file of one line, with or without its line feed, is the empty state under those first lines. */
  lemma FirstLineAlone(line: string)
    requires '\n' !in line
    ensures Decode(line) == if IsVersion(line) then Some(AttachState(None, [], [])) else None
    ensures Decode(line + "\n") == if IsVersion(StripCr(line)) then Some(AttachState(None, [], [])) else None
  {
    hide KnownHeader, IsVersion;
    HeadersAreVersions(line);
    HeadersAreVersions(StripCr(line));
    FirstLine(line, "");
    assert line + "\n" + "" == line + "\n" && Lines("") == [];
    if line == "" {
      assert !IsVersion("") by { EmptyIsNoVersion(); }
    } else {
      assert FirstIndex(line, '\n') == |line|;
    }
  }

  lemma EmptyIsNoVersion()
    ensures !IsVersion("")
  {
  }

  // ---------- one older file ----------

  // The lines of a file of the first format: no times, no surface kind, no blinking, no mouse fields, no colour flag.
  function FirstFormat(s: Scope, v: View, cursor: Cursor): seq<Fields> {
    [["scope", "socket", PrintNat(s.dev), PrintNat(s.ino)],
     ["surface", HexText(v.paneId), PrintNat(v.version), PrintNat(v.cols), PrintNat(v.rows)],
     ["cursor", PrintNat(cursor.row), PrintNat(cursor.col), Flag(cursor.visible), PrintNat(ShapeCode(cursor.shape))],
     ["modes", Flag(v.modes.bracketedPaste), Flag(v.modes.mouseTracking), Flag(v.modes.focusReporting),
      Flag(v.modes.applicationKeypad), Flag(v.modes.applicationCursor), Flag(v.modes.origin), Flag(v.modes.wraparound)],
     ["title", HexText(v.title)],
     ["pwd", HexText(v.cwd)],
     ["colors", PrintNat(v.colors.fg), PrintNat(v.colors.bg), PrintNat(v.colors.cursor),
      HexOf(PaletteBytes(v.colors.palette))],
     ["end"]]
  }

  // What it means today.
  function Understood(v: View, cursor: Cursor): CachedSurface {
    CachedSurface(
      View(v.paneId, v.version, v.cols, v.rows, Main, Some(cursor.(blinking := true)),
           v.modes.(trackingMode := NoTracking, mouseFormat := X10Format), v.title, v.cwd,
           v.colors.(cursorSet := v.colors.cursor != 0), [DEFAULT_STYLE],
           Rows(seq(v.rows, _ => ""), seq(v.rows, _ => [PlainRun("")]), seq(v.rows, _ => NoPrompt),
                seq(v.rows, _ => false), seq(v.rows, _ => false))),
      [], seq(v.rows, _ => 0), seq(v.rows, _ => 0))
  }

  lemma ShortLines(s: Scope, v: View, cursor: Cursor)
    ensures var ls := FirstFormat(s, v, cursor);
            && ls[0] == ScopeLine(s)[..4] && ls[1] == SurfaceLine(v)[..5] && ls[2] == CursorLine(Some(cursor))[..5]
            && ls[3] == ModesLine(v.modes)[..8] && ls[6] == ColorsLine(v.colors)[..4] + ColorsLine(v.colors)[5..]
  {
    hide PrintNat, PrintInt, HexText, HexOf, PaletteBytes, Flag;
  }

  lemma CutIsClean(line: Fields, n: nat)
    requires CleanLine(line) && 1 <= n <= |line|
    ensures CleanLine(line[..n])
    ensures n < |line| ==> CleanLine(line[..n] + line[n + 1..])
  {
    hide Clean;
  }

  lemma FirstFormatClean(s: Scope, v: View, cursor: Cursor)
    ensures CleanLines(FirstFormat(s, v, cursor))
  {
    hide ScopeLine, SurfaceLine, CursorLine, ModesLine, ColorsLine, HexText, PrintNat, Flag, HexOf, CleanLine;
    ShortLines(s, v, cursor);
    ScopeReads(s);
    SurfaceReads(v);
    CursorReads(Some(cursor));
    ModesReads(v.modes);
    ColorsReads(v.colors);
    CutIsClean(ScopeLine(s), 4);
    CutIsClean(SurfaceLine(v), 5);
    CutIsClean(CursorLine(Some(cursor)), 5);
    CutIsClean(ModesLine(v.modes), 8);
    CutIsClean(ColorsLine(v.colors), 4);
    KeywordsClean();
    WordClean("title", v.title);
    WordClean("pwd", v.cwd);
    EndClean();
    var ls := FirstFormat(s, v, cursor);
    assert ls[4] in [["title", HexText(v.title)]] && ls[5] in [["pwd", HexText(v.cwd)]] && ls[7] in [["end"]];
  }

  lemma ShortCursorRead(c: CachedSurface, cursor: Cursor)
    requires RowsFit(c)
    ensures ReadBodyLine(c, CursorLine(Some(cursor))[..5])
            == Some(c.(view := c.view.(cursor := Some(cursor.(blinking := true)))))
  {
    hide KeywordOf, ReadCursor, PrintNat, Flag, ShapeCode;
    Keywords();
    OlderCursorReads(cursor);
  }

  lemma ShortModesRead(c: CachedSurface, m: Modes)
    requires RowsFit(c)
    ensures ReadBodyLine(c, ModesLine(m)[..8])
            == Some(c.(view := c.view.(modes := m.(trackingMode := NoTracking, mouseFormat := X10Format))))
  {
    hide KeywordOf, ReadModes, PrintNat, Flag, TrackingCode, FormatCode;
    Keywords();
    OlderModesRead(m);
  }

  lemma ShortColorsRead(c: CachedSurface, k: Colors)
    requires RowsFit(c)
    ensures ReadBodyLine(c, ColorsLine(k)[..4] + ColorsLine(k)[5..])
            == Some(c.(view := c.view.(colors := k.(cursorSet := k.cursor != 0))))
  {
    hide KeywordOf, ReadColors, PrintNat, Flag, HexOf, PaletteBytes;
    Keywords();
    OlderColorsRead(k);
  }

  // The surface before the final checks.
  function Unfinished(v: View, cursor: Cursor): (c: CachedSurface)
    ensures RowsFit(c)
  {
    var blank := BlankSurface(v.paneId, v.version, v.cols, v.rows, Main);
    blank.(view := blank.view.(cursor := Some(cursor.(blinking := true)),
                               modes := v.modes.(trackingMode := NoTracking, mouseFormat := X10Format),
                               title := v.title, cwd := v.cwd,
                               colors := v.colors.(cursorSet := v.colors.cursor != 0)))
  }

  lemma BodyFolds(s: Scope, v: View, cursor: Cursor)
    ensures Fold(BlankSurface(v.paneId, v.version, v.cols, v.rows, Main), FirstFormat(s, v, cursor)[2..7])
            == Some(Unfinished(v, cursor))
  {
    hide ReadBodyLine, CursorLine, ModesLine, ColorsLine, HexText, Fold, PrintNat, Flag, HexOf;
    ShortLines(s, v, cursor);
    var ls := FirstFormat(s, v, cursor);
    var c := BlankSurface(v.paneId, v.version, v.cols, v.rows, Main);
    var c1 := c.(view := c.view.(cursor := Some(cursor.(blinking := true))));
    ShortCursorRead(c, cursor);
    FoldOne(c, ls[2]);
    var c2 := c1.(view := c1.view.(modes := v.modes.(trackingMode := NoTracking, mouseFormat := X10Format)));
    ShortModesRead(c1, v.modes);
    FoldTwo(c, c1, [ls[2]], ls[3]);
    var c3 := c2.(view := c2.view.(title := v.title));
    TitleReads(c2, v.title);
    FoldTwo(c, c2, [ls[2]] + [ls[3]], ls[4]);
    var c4 := c3.(view := c3.view.(cwd := v.cwd));
    PwdReads(c3, v.cwd);
    FoldTwo(c, c3, [ls[2]] + [ls[3]] + [ls[4]], ls[5]);
    ShortColorsRead(c4, v.colors);
    FoldTwo(c, c4, [ls[2]] + [ls[3]] + [ls[4]] + [ls[5]], ls[6]);
    assert ls[2..7] == [ls[2]] + [ls[3]] + [ls[4]] + [ls[5]] + [ls[6]];
  }

  lemma FinishesAs(v: View, cursor: Cursor)
    ensures Finish(Unfinished(v, cursor)) == Some(Understood(v, cursor))
  {
    var c := Unfinished(v, cursor);
    var runs := RunsForText(c.view.screen.lines, c.view.screen.runs);
    assert runs == seq(v.rows, _ => [PlainRun("")]);
    assert Canonical(c) == Understood(v, cursor);
  }

  lemma SurfaceUnderstood(s: Scope, v: View, cursor: Cursor)
    ensures ReadSurface(FirstFormat(s, v, cursor)[1..]) == Some((Understood(v, cursor), 7))
  {
    hide Fold, ReadBody, ReadSurfaceLine, Finish, Unfinished, BlankSurface, HexText, PrintNat, Flag, HexOf, SurfaceLine;
    ShortLines(s, v, cursor);
    OlderSurfaceReads(v);
    BodyFolds(s, v, cursor);
    FinishesAs(v, cursor);
    var ls := FirstFormat(s, v, cursor);
    BodyReads(BlankSurface(v.paneId, v.version, v.cols, v.rows, Main), ls[2..7], []);
    assert ls[1..][1..] == ls[2..7] + ([["end"]] + []);
    assert ls[1..][0] == ls[1];
  }

  lemma LinesUnderstood(s: Scope, v: View, cursor: Cursor)
    ensures ReadLines(FirstFormat(s, v, cursor), AttachState(None, [], []))
            == Some(AttachState(Some(Scope(s.dev, s.ino, 0, 0)), [Understood(v, cursor)], []))
  {
    hide ReadScope, ReadSurface, ReadScrollback, HexText, PrintNat, Flag, HexOf, KeywordOf, Understood, ScopeLine;
    Keywords();
    ShortLines(s, v, cursor);
    OlderScopeReads(s);
    SurfaceUnderstood(s, v, cursor);
    var ls := FirstFormat(s, v, cursor);
    var scope := Some(Scope(s.dev, s.ino, 0, 0));
    assert ls[1..][0][0] == "surface" && ls[1..][7..] == [];
    assert ReadLines(ls[1..], AttachState(scope, [], []))
        == ReadLines([], AttachState(scope, [] + [Understood(v, cursor)], []));
    AddNothing([Understood(v, cursor)]);
  }

  /** A file in the first format's lines, under any of the eight first lines, is read to the expected state. */
  lemma OlderFileReads(n: nat, s: Scope, v: View, cursor: Cursor)
    requires 1 <= n <= 8
    ensures Decode(VersionLine(n) + "\n" + Unlines(FirstFormat(s, v, cursor)))
            == Some(AttachState(Some(Scope(s.dev, s.ino, 0, 0)), [Understood(v, cursor)], []))
  {
    hide ReadLines, FirstFormat, Understood, KnownHeader, Unlines;
    var rest := Unlines(FirstFormat(s, v, cursor));
    VersionIsOneLine(n);
    FirstLine(VersionLine(n), rest);
    HeadersAreVersions(VersionLine(n));
    FirstFormatClean(s, v, cursor);
    LinesOfUnlines(FirstFormat(s, v, cursor));
    LinesUnderstood(s, v, cursor);
    assert Lines(VersionLine(n) + "\n" + rest)[1..] == Lines(rest);
  }

  // ---------- today's text ----------

  lemma OneUnlined(line: Fields)
    ensures Unlines([line]) == Join(line) + "\n"
  {
    assert [line][..0] == [] && Unlines([]) == "";
  }

  lemma HexOfP()
    ensures HexText("p") == "70" && HexText("pi") == "7069" && HexOf([0xAF]) == "af"
  {
    assert "p"[1..] == "" && "pi"[1..] == "i" && "i"[1..] == "";
    assert EncodeChar('p') == [0x70] && EncodeChar('i') == [0x69];
    assert ToUtf8("i") == [0x69] + ToUtf8("") && ToUtf8("p") == [0x70] + ToUtf8("");
    assert ToUtf8("pi") == [0x70] + ToUtf8("i");
    assert ToUtf8("p") == [0x70] && ToUtf8("pi") == [0x70, 0x69];
    assert [0x70][..0] == [] && [0x70, 0x69][..1] == [0x70] && [0xAF][..0] == [];
    assert HexOf([]) == "" && HexPair(0x70) == "70" && HexPair(0x69) == "69" && HexPair(0xAF) == "af";
    assert HexOf([0x70]) == HexOf([]) + HexPair(0x70);
    assert HexOf([0x70, 0x69]) == HexOf([0x70]) + HexPair(0x69);
    assert HexOf([0xAF]) == HexOf([]) + HexPair(0xAF);
  }

  lemma SmallNumbers()
    ensures PrintNat(1) == "1" && PrintNat(2) == "2" && PrintNat(4) == "4" && PrintNat(5) == "5" && PrintNat(9) == "9"
    ensures PrintInt(-3) == "-3" && PrintInt(4) == "4"
  {
    assert PrintInt(-3) == "-" + PrintNat(3) && PrintNat(3) == "3" && "-" + "3" == "-3";
  }

  lemma JoinSix(a: string, b: string, c: string, d: string, e: string, f: string)
    ensures Join([a, b, c, d, e, f]) == a + " " + (b + " " + (c + " " + (d + " " + (e + " " + f))))
  {
    assert [a, b, c, d, e, f][1..] == [b, c, d, e, f] && [b, c, d, e, f][1..] == [c, d, e, f];
    assert [c, d, e, f][1..] == [d, e, f] && [d, e, f][1..] == [e, f] && [e, f][1..] == [f];
    assert Join([e, f]) == e + " " + Join([f]);
    assert Join([d, e, f]) == d + " " + Join([e, f]);
    assert Join([c, d, e, f]) == c + " " + Join([d, e, f]);
    assert Join([b, c, d, e, f]) == b + " " + Join([c, d, e, f]);
  }

  lemma ScopeText()
    ensures Join(ScopeLine(Scope(1, 2, -3, 4))) == "scope socket 1 2 -3 4"
  {
    hide PrintNat, PrintInt, Join;
    SmallNumbers();
    JoinSix("scope", "socket", "1", "2", "-3", "4");
  }

  lemma ScrollbackText()
    ensures Join(ScrollbackLine(CachedScrollback("pi", 5, 1, 2, 9))) == "scrollback 7069 5 1 2 9"
  {
    hide PrintNat, PrintInt, Join, HexText;
    SmallNumbers();
    HexOfP();
    JoinSix("scrollback", "7069", "5", "1", "2", "9");
  }

  lemma HeaderText()
    ensures Line(HEADER) == "NMUX_CLIENT_STATE 8\n"
  {
    assert HEADER[1..] == ["8"] && Join(HEADER) == "NMUX_CLIENT_STATE" + " " + "8";
  }

  /** A small file, character by character. */
  lemma ExampleFile()
    ensures Encode(AttachState(Some(Scope(1, 2, -3, 4)), [], [CachedScrollback("pi", 5, 1, 2, 9)]))
            == "NMUX_CLIENT_STATE 8\n" + ("scope socket 1 2 -3 4\n" + "scrollback 7069 5 1 2 9\n")
  {
    hide PrintNat, PrintInt, HexText, Join, ScopeLine, ScrollbackLine;
    var scope, entry := Scope(1, 2, -3, 4), CachedScrollback("pi", 5, 1, 2, 9);
    var s := AttachState(Some(scope), [], [entry]);
    ScopeText();
    ScrollbackText();
    HeaderText();
    assert [entry][1..] == [] && ScrollbackLines([entry]) == [ScrollbackLine(entry)] + ScrollbackLines([]);
    assert AllLines(s) == [ScopeLine(scope)] + [ScrollbackLine(entry)];
    UnlinesLast([ScopeLine(scope)], ScrollbackLine(entry));
    OneUnlined(ScopeLine(scope));
  }
}
