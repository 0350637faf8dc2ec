/** The interim engine applied to panes: output in any chunks, the screen as the tail of an append-only
    scrollback, and updates a client can always follow. */
module InterimEngine {
  import opened Types
  import opened Text
  import opened PaneUpdate
  import opened Mirror
  import opened Sync
  import opened Interim

  function Tail(lines: seq<string>, rows: nat): seq<string> {
    lines[Max(|lines| - rows, 0)..]
  }

  function InterimUpdate(p: Pane, modes: Modes, rows: u32, lines: seq<string>, col: u32): Update {
    var screen := Tail(lines, rows);
    Update(ReplaceRows, p.surface, false, p.cursor.(row := Max(|screen| - 1, 0), col := col), modes, p.title, p.cwd,
           p.colors, [DEFAULT_STYLE], PlainRows(screen), PlainRows(lines))
  }

  function EngineOutput(state: AnsiState, p: Pane, bytes: seq<byte>): (AnsiState, Update) {
    var f := FilterBytes(Filter(state, p.modes, []), bytes);
    var (lines, col) := Merged(p.scrollback.lines, p.cursor.col > 0, Lossy(f.text));
    (f.state, InterimUpdate(p, f.modes, p.rows, lines, col))
  }

  function EngineResize(p: Pane, rows: u32): Update {
    InterimUpdate(p, p.modes, rows, p.scrollback.lines, p.cursor.col)
  }

  class InterimTextTerminalEngine {
    const parser: InterimAnsiParser

    constructor ()
      ensures fresh(parser) && parser.state == Ground
    {
      parser := new InterimAnsiParser();
    }

    method ApplyOutput(p: Pane, output: seq<byte>) returns (u: Update)
      modifies parser
      ensures (parser.state, u) == EngineOutput(old(parser.state), p, output)
    {
      var text, modes := parser.Consume(output, p.modes);
      var lines, col := MergeInterimPtyOutput(p.scrollback.lines, p.cursor.col > 0, text);
      u := InterimUpdate(p, modes, p.rows, lines, col);
    }

    method Resize(p: Pane, cols: u32, rows: u32) returns (u: Update)
      ensures u == EngineResize(p, rows)
      ensures |u.screen.lines| == Min(rows, |p.scrollback.lines|)
      ensures u.screen.lines == p.scrollback.lines[|p.scrollback.lines| - |u.screen.lines|..]
      ensures u.cursor == p.cursor.(row := Max(|u.screen.lines| - 1, 0))
      ensures u.scrollback.lines == p.scrollback.lines && (u.modes, u.title, u.cwd) == (p.modes, p.title, p.cwd)
    {
      u := InterimUpdate(p, p.modes, rows, p.scrollback.lines, p.cursor.col);
    }
  }

  /** One output event on a pane. */
  function PaneOutput(state: AnsiState, p: Pane, bytes: seq<byte>): (AnsiState, Pane) {
    var (next, u) := EngineOutput(state, p, bytes);
    (next, Updated(p, u, false))
  }

  /** The pane's content, without version counters and patch bookkeeping. */
  function Content(p: Pane): Pane {
    p.(surfaceVersion := 0, scrollbackVersion := 0, patchKind := ReplaceRows, rowUpdates := [], paletteDiff := None)
  }

  // A positive cursor column stands after printed characters of the last line.
  predicate CursorOnText(p: Pane) {
    && p.scrollback.lines != []
    && (p.cursor.col > 0 ==> p.scrollback.lines[|p.scrollback.lines| - 1] != "")
  }

  // ---------- chunk boundaries ----------

  predicate TapeGood(t: Tape) {
    t.open ==> t.lines != [] && t.lines[|t.lines| - 1] != ""
  }

  lemma {:induction false} PrintedGood(t: Tape, s: string)
    requires TapeGood(t)
    ensures TapeGood(Printed(t, s)) && |t.lines| <= |Printed(t, s).lines|
  {
    if s != "" {
      PrintedGood(t, s[..|s| - 1]);
    }
  }

  function TapeOf(p: Pane): Tape {
    Tape(p.scrollback.lines, p.cursor.col > 0)
  }

  lemma MergedTape(before: seq<string>, append: bool, s: string)
    requires TapeGood(Tape(before, append)) && before != []
    ensures var (lines, col) := Merged(before, append, s);
            && Tape(lines, col > 0) == Printed(Tape(before, append), Newlines(s))
            && TapeGood(Tape(lines, col > 0)) && lines != []
  {
    PrintedGood(Tape(before, append), Newlines(s));
  }

  /** An interim update leaves the given lines and column in the pane. */
  lemma InterimUpdateShows(p: Pane, modes: Modes, lines: seq<string>, col: u32, force: bool)
    ensures var q := Updated(p, InterimUpdate(p, modes, p.rows, lines, col), force);
            && q.scrollback == PlainRows(lines) && q.screen == PlainRows(Tail(lines, p.rows))
            && q.cursor.col == col && q.modes == modes && q.colors == p.colors && q.paletteDiff == None
  {
    PlainRowsCoherent(lines);
    NormalizeCoherent(PlainRows(lines));
    PlainRowsCoherent(Tail(lines, p.rows));
    NormalizeCoherent(PlainRows(Tail(lines, p.rows)));
  }

  /** After an output the pane is exactly the printed tape, so the next output continues it. */
  lemma OutputPrints(state: AnsiState, p: Pane, bytes: seq<byte>)
    requires CursorOnText(p)
    ensures var f := FilterBytes(Filter(state, p.modes, []), bytes);
            var q := PaneOutput(state, p, bytes).1;
            && TapeOf(q) == Printed(TapeOf(p), Newlines(Lossy(f.text))) && CursorOnText(q) && q.modes == f.modes
  {
    var f := FilterBytes(Filter(state, p.modes, []), bytes);
    var merged := Merged(p.scrollback.lines, p.cursor.col > 0, Lossy(f.text));
    MergedTape(p.scrollback.lines, p.cursor.col > 0, Lossy(f.text));
    InterimUpdateShows(p, f.modes, merged.0, merged.1, false);
    assert PaneOutput(state, p, bytes).1 == Updated(p, InterimUpdate(p, f.modes, p.rows, merged.0, merged.1), false);
  }

  /** The content after an output depends only on the printed tape and the filter. */
  lemma OutputContent(state: AnsiState, p: Pane, bytes: seq<byte>)
    requires CursorOnText(p)
    ensures var f := FilterBytes(Filter(state, p.modes, []), bytes);
            var t := Printed(TapeOf(p), Newlines(Lossy(f.text)));
            var col := if t.open then LastWidth(t.lines) else 0;
            Content(PaneOutput(state, p, bytes).1)
            == Content(Updated(p, InterimUpdate(p, f.modes, p.rows, t.lines, col), false))
  {
    var f := FilterBytes(Filter(state, p.modes, []), bytes);
    PrintedGood(TapeOf(p), Newlines(Lossy(f.text)));
  }

  /** The text that the filter lets through of `bytes`. */
  function Visible(state: AnsiState, modes: Modes, bytes: seq<byte>): seq<byte> {
    FilterBytes(Filter(state, modes, []), bytes).text
  }

  lemma FilterJoins(start: Filter, a: seq<byte>, b: seq<byte>)
    ensures var f := FilterBytes(start, a);
            var g := FilterBytes(Filter(f.state, f.modes, []), b);
            FilterBytes(start, a + b) == g.(text := f.text + g.text)
  {
    var f := FilterBytes(start, a);
    FilterSplits(start, a, b);
    FilterTextShifts(f, f.text, b);
  }

  // The parser does not care about chunks.
  lemma SecondChunk(state: AnsiState, modes: Modes, a: seq<byte>, b: seq<byte>)
    ensures var f := FilterBytes(Filter(state, modes, []), a);
            var g := FilterBytes(Filter(f.state, f.modes, []), b);
            FilterBytes(Filter(state, modes, []), a + b) == Filter(g.state, g.modes, f.text + g.text)
  {
    FilterJoins(Filter(state, modes, []), a, b);
  }

  lemma NewlinesSplit(a: string, b: string)
    requires !CutsCrLf(a, b)
    ensures Newlines(a + b) == Newlines(a) + Newlines(b)
  {
    CrLfSplits(a, b);
    CrToLfJoins(CrLfToLf(a), CrLfToLf(b));
  }

  lemma CutNewlines(a: string, b: string)
    requires CutsCrLf(a, b)
    ensures Newlines(a) == Newlines(a[..|a| - 1]) + "\n"
    ensures Newlines(b) == "\n" + Newlines(b[1..])
    ensures Newlines(a + b) == Newlines(a[..|a| - 1]) + ("\n" + Newlines(b[1..]))
  {
    var head, tail := CrLfToLf(a[..|a| - 1]), CrLfToLf(b[1..]);
    CutPair(a, b);
    NoFinalCrPair(a);
    assert CrLfToLf(b) == "\n" + tail;
    CrToLfJoins(head, "\r");
    CrToLfJoins("\n", tail);
    CrToLfJoins(head, "\n" + tail);
    assert CrToLf("\r") == "\n" == CrToLf("\n");
  }

  // What a decoded text adds to a tape.
  function TextWeight(s: string): nat {
    Weight(Newlines(s))
  }

  lemma TextWeightSplits(a: string, b: string)
    requires !CutsCrLf(a, b)
    ensures TextWeight(a + b) == TextWeight(a) + TextWeight(b)
  {
    NewlinesSplit(a, b);
    WeightJoins(Newlines(a), Newlines(b));
  }

  lemma OneCharacter(ch: char)
    requires ch >= 0x80 as char
    ensures TextWeight([ch]) == if Kept(ch) then 1 else 0
  {
    CrLfHead([ch]);
    assert CrLfToLf([ch]) == [ch] + "";
    assert Newlines([ch]) == [ch];
    assert [ch][..|[ch]| - 1] == "" && Weight("") == 0;
  }

  lemma SomeReplacements(n: nat)
    requires n > 0
    ensures TextWeight(Replacements(n)) > 0 && Replacements(n)[n - 1] == Replacements(n)[0] == REPLACEMENT
  {
    assert Replacements(n) == [REPLACEMENT] + Replacements(n - 1);
    TextWeightSplits([REPLACEMENT], Replacements(n - 1));
    OneCharacter(REPLACEMENT);
  }

  /** Cutting inside a character prints too many replacements. */
  lemma CutCharAdds(a: seq<byte>, b: seq<byte>)
    requires CutsChar(a, b)
    ensures TextWeight(Lossy(a)) + TextWeight(Lossy(b)) > TextWeight(Lossy(a + b))
  {
    var head, n, ch, tail := CutCharDecodes(a, b);
    SomeReplacements(n);
    TextWeightSplits(head, [REPLACEMENT]);
    TextWeightSplits(Replacements(n), tail);
    TextWeightSplits(head + [ch], tail);
    TextWeightSplits(head, [ch]);
    OneCharacter(ch);
    OneCharacter(REPLACEMENT);
  }

  /** Cutting between CR and LF prints one line break too many. */
  lemma CutCrLfAdds(a: string, b: string)
    requires CutsCrLf(a, b)
    ensures TextWeight(a) + TextWeight(b) == TextWeight(a + b) + 1
  {
    var head, tail := Newlines(a[..|a| - 1]), Newlines(b[1..]);
    CutNewlines(a, b);
    WeightJoins(head, "\n");
    WeightJoins("\n", tail);
    WeightJoins(head, "\n" + tail);
    assert "\n"[..0] == "";
  }

  /** The cut is inside a character, or between CR and LF. */
  predicate CutsText(a: seq<byte>, b: seq<byte>) {
    CutsChar(a, b) || CutsCrLf(Lossy(a), Lossy(b))
  }

  lemma CutWeighs(a: seq<byte>, b: seq<byte>)
    ensures TextWeight(Lossy(a)) + TextWeight(Lossy(b)) >= TextWeight(Lossy(a + b))
    ensures TextWeight(Lossy(a)) + TextWeight(Lossy(b)) == TextWeight(Lossy(a + b)) <==> !CutsText(a, b)
  {
    hide TextWeight, Lossy, CutsChar, CutsCrLf;
    if CutsChar(a, b) {
      CutCharAdds(a, b);
    } else {
      LossyJoins(a, b);
      if CutsCrLf(Lossy(a), Lossy(b)) {
        CutCrLfAdds(Lossy(a), Lossy(b));
      } else {
        TextWeightSplits(Lossy(a), Lossy(b));
      }
    }
  }

  lemma OutputWeighs(state: AnsiState, p: Pane, bytes: seq<byte>)
    requires CursorOnText(p)
    ensures var q := PaneOutput(state, p, bytes).1;
            && CursorOnText(q)
            && Bulk(TapeOf(q)) == Bulk(TapeOf(p)) + TextWeight(Lossy(Visible(state, p.modes, bytes)))
  {
    OutputPrints(state, p, bytes);
    PrintedBulk(TapeOf(p), Newlines(Lossy(Visible(state, p.modes, bytes))));
  }

  lemma UncutPrints(t: Tape, a: seq<byte>, b: seq<byte>)
    requires !CutsText(a, b)
    ensures Printed(Printed(t, Newlines(Lossy(a))), Newlines(Lossy(b))) == Printed(t, Newlines(Lossy(a + b)))
  {
    LossyJoins(a, b);
    NewlinesSplit(Lossy(a), Lossy(b));
    PrintedSplits(t, Newlines(Lossy(a)), Newlines(Lossy(b)));
  }

  lemma SameTape(p: Pane, q: Pane)
    requires Content(p) == Content(q)
    ensures TapeOf(p) == TapeOf(q)
  {
    assert TapeOf(p) == TapeOf(Content(p)) && TapeOf(q) == TapeOf(Content(q));
  }

  /** Two outputs in a row equal one output of their concatenation exactly when the cut is neither inside a
      character nor between CR and LF; the parser's state and the modes agree in any case. */
  lemma ChunksJoin(state: AnsiState, p: Pane, a: seq<byte>, b: seq<byte>)
    requires CursorOnText(p)
    ensures var (s1, p1) := PaneOutput(state, p, a);
            var (s2, p2) := PaneOutput(s1, p1, b);
            var (s, q) := PaneOutput(state, p, a + b);
            && s2 == s && p2.modes == q.modes
            && (Content(p2) == Content(q) <==> !CutsText(Visible(state, p.modes, a), Visible(s1, p1.modes, b)))
  {
    hide Content, Printed, Weight, Bulk, CutsText, Updated, Newlines;
    var (s1, p1) := PaneOutput(state, p, a);
    var (s2, p2) := PaneOutput(s1, p1, b);
    var (s, q) := PaneOutput(state, p, a + b);
    OutputPrints(state, p, a);
    OutputPrints(s1, p1, b);
    OutputPrints(state, p, a + b);
    SecondChunk(state, p.modes, a, b);
    var va, vb := Visible(state, p.modes, a), Visible(s1, p1.modes, b);
    if CutsText(va, vb) {
      OutputWeighs(state, p, a);
      OutputWeighs(s1, p1, b);
      OutputWeighs(state, p, a + b);
      CutWeighs(va, vb);
      if Content(p2) == Content(q) {
        SameTape(p2, q);
        assert false;
      }
    } else {
      UncutPrints(TapeOf(p), va, vb);
      OutputContent(s1, p1, b);
      OutputContent(state, p, a + b);
      SameShown(p, p1, q.modes, Printed(TapeOf(p), Newlines(Lossy(va + vb))));
    }
  }

  // The content shown after printing depends on the pane only in what output does not change.
  lemma SameShown(p: Pane, p1: Pane, modes: Modes, t: Tape)
    requires exists bytes, state :: p1 == PaneOutput(state, p, bytes).1
    ensures var col := if t.open then LastWidth(t.lines) else 0;
            Content(Updated(p, InterimUpdate(p, modes, p.rows, t.lines, col), false))
            == Content(Updated(p1, InterimUpdate(p1, modes, p1.rows, t.lines, col), false))
  {
  }

  // ---------- every chunking ----------

  function PaneOutputs(state: AnsiState, p: Pane, chunks: seq<seq<byte>>): (AnsiState, Pane)
    decreases |chunks|
  {
    if chunks == [] then (state, p)
    else
      var (s, q) := PaneOutputs(state, p, chunks[..|chunks| - 1]);
      PaneOutput(s, q, chunks[|chunks| - 1])
  }

  /** No boundary is inside a character or between CR and LF. */
  ghost predicate CleanBoundaries(state: AnsiState, modes: Modes, chunks: seq<seq<byte>>)
    decreases |chunks|
  {
    |chunks| > 1 ==>
      var f := FilterBytes(Filter(state, modes, []), Joined(chunks[..|chunks| - 1]));
      && CleanBoundaries(state, modes, chunks[..|chunks| - 1])
      && !CutsText(f.text, Visible(f.state, f.modes, chunks[|chunks| - 1]))
  }

  lemma SameContentSameOutput(state: AnsiState, p: Pane, q: Pane, bytes: seq<byte>)
    requires Content(p) == Content(q)
    ensures PaneOutput(state, p, bytes).0 == PaneOutput(state, q, bytes).0
    ensures Content(PaneOutput(state, p, bytes).1) == Content(PaneOutput(state, q, bytes).1)
  {
    assert p.modes == Content(p).modes && p.cursor == Content(p).cursor && p.scrollback == Content(p).scrollback;
    assert q.modes == Content(q).modes && q.cursor == Content(q).cursor && q.scrollback == Content(q).scrollback;
    assert EngineOutput(state, p, bytes) == EngineOutput(state, Content(p), bytes);
    assert EngineOutput(state, q, bytes) == EngineOutput(state, Content(q), bytes);
  }

  // However a stream is cut, the parser ends the same, and bad cuts only add to the tape.
  lemma {:induction false} ChunksWeigh(state: AnsiState, p: Pane, chunks: seq<seq<byte>>)
    requires CursorOnText(p) && chunks != []
    ensures var (s, q) := PaneOutputs(state, p, chunks);
            var (t, r) := PaneOutput(state, p, Joined(chunks));
            && s == t && q.modes == r.modes && CursorOnText(q) && CursorOnText(r)
            && Bulk(TapeOf(q)) >= Bulk(TapeOf(r))
            && (Bulk(TapeOf(q)) == Bulk(TapeOf(r)) <==> CleanBoundaries(state, p.modes, chunks))
    decreases |chunks|
  {
    hide PaneOutput, CursorOnText, Bulk, CutsText, TapeOf, TextWeight, Lossy;
    var n := |chunks| - 1;
    if n == 0 {
      assert chunks[..0] == [] && [] + chunks[0] == chunks[0];
      OutputWeighs(state, p, chunks[0]);
    } else {
      var before, last := Joined(chunks[..n]), chunks[n];
      var (s, q) := PaneOutputs(state, p, chunks[..n]);
      ChunksWeigh(state, p, chunks[..n]);
      OutputParses(state, p, before);
      OutputParses(s, q, last);
      OutputParses(state, p, before + last);
      SecondChunk(state, p.modes, before, last);
      OutputWeighs(s, q, last);
      OutputWeighs(state, p, before);
      OutputWeighs(state, p, before + last);
      CutWeighs(Visible(state, p.modes, before), Visible(s, q.modes, last));
    }
  }

  lemma OutputParses(state: AnsiState, p: Pane, bytes: seq<byte>)
    requires CursorOnText(p)
    ensures var f := FilterBytes(Filter(state, p.modes, []), bytes);
            PaneOutput(state, p, bytes).0 == f.state && PaneOutput(state, p, bytes).1.modes == f.modes
  {
    OutputPrints(state, p, bytes);
  }

  lemma {:induction false} CleanChunks(state: AnsiState, p: Pane, chunks: seq<seq<byte>>)
    requires CursorOnText(p) && chunks != [] && CleanBoundaries(state, p.modes, chunks)
    ensures var (s, q) := PaneOutputs(state, p, chunks);
            var (t, r) := PaneOutput(state, p, Joined(chunks));
            s == t && Content(q) == Content(r)
    decreases |chunks|
  {
    hide Content, CutsText, Updated;
    var n := |chunks| - 1;
    if n == 0 {
      assert chunks[..0] == [] && [] + chunks[0] == chunks[0];
    } else {
      var before := Joined(chunks[..n]);
      CleanChunks(state, p, chunks[..n]);
      OutputPrints(state, p, before);
      ChunksJoin(state, p, before, chunks[n]);
      SameContentSameOutput(
        PaneOutputs(state, p, chunks[..n]).0, PaneOutputs(state, p, chunks[..n]).1,
        PaneOutput(state, p, before).1, chunks[n]);
    }
  }

  /** However a stream is cut into chunks, the pane ends with the content that one single output gives exactly
      when no cut is inside a character or between CR and LF; bad cuts never make up for each other. */
  lemma AnyChunking(state: AnsiState, p: Pane, chunks: seq<seq<byte>>)
    requires CursorOnText(p) && chunks != []
    ensures var (s, q) := PaneOutputs(state, p, chunks);
            var (t, r) := PaneOutput(state, p, Joined(chunks));
            && s == t && q.modes == r.modes
            && (Content(q) == Content(r) <==> CleanBoundaries(state, p.modes, chunks))
  {
    hide Content, PaneOutput, PaneOutputs, CleanBoundaries, Bulk, TapeOf, CursorOnText;
    ChunksWeigh(state, p, chunks);
    if CleanBoundaries(state, p.modes, chunks) {
      CleanChunks(state, p, chunks);
    } else if Content(PaneOutputs(state, p, chunks).1) == Content(PaneOutput(state, p, Joined(chunks)).1) {
      SameTape(PaneOutputs(state, p, chunks).1, PaneOutput(state, p, Joined(chunks)).1);
      assert false;
    }
  }

  /** Such a cut: an e with an acute accent sent in two outputs is printed as two replacement characters. */
  lemma AccentCut(state: AnsiState, p: Pane)
    requires CursorOnText(p) && state == Ground
    ensures var (s1, p1) := PaneOutput(state, p, [0xC3]);
            Content(PaneOutput(s1, p1, [0xA9]).1) != Content(PaneOutput(state, p, [0xC3, 0xA9]).1)
  {
    hide PaneOutput, Content, CutsText, FilterBytes;
    var a, b: seq<byte> := [0xC3], [0xA9];
    OneVisible(p.modes, 0xC3);
    OutputParses(state, p, a);
    OneVisible(p.modes, 0xA9);
    assert a + b == [0xC3, 0xA9];
    AccentIsCut();
    ChunksJoin(state, p, a, b);
  }

  lemma AccentIsCut()
    ensures CutsText([0xC3], [0xA9])
  {
    var a: seq<byte> := [0xC3];
    assert DecodeFirst(a) == Bad(1) && LossyTail(a) == a;
  }

  lemma OneVisible(modes: Modes, b: byte)
    requires b != ESC && b != 0x9b
    ensures FilterBytes(Filter(Ground, modes, []), [b]) == Filter(Ground, modes, [b])
  {
    var start := Filter(Ground, modes, []);
    assert [b][..|[b]| - 1] == [] && FilterBytes(start, []) == start;
    assert FilterBytes(start, [b]) == FilterByte(start, b);
  }

  // ---------- what every interim run keeps ----------

  predicate IsSuffix(a: seq<string>, b: seq<string>) {
    |a| <= |b| && a == b[|b| - |a|..]
  }

  /** Kept by every pane an interim engine drives. */
  ghost predicate InterimGood(p: Pane) {
    && CursorOnText(p) && Coherent(p.screen) && Coherent(p.scrollback)
    && IsSuffix(p.screen.lines, p.scrollback.lines) && p.paletteDiff == None
    && (forall i | 0 <= i < |p.screen.runs| :: StyleIdsKnown(p.screen.runs[i], []))
  }

  /** No line of a scrollback is ever lost or rewritten, except that an open last line is extended. */
  predicate AppendOnly(before: seq<string>, after: seq<string>) {
    && |before| <= |after|
    && (forall i | 0 <= i < |before| - 1 :: after[i] == before[i])
    && (before != [] ==> before[|before| - 1] <= after[|before| - 1])
  }

  lemma PlainRowStyles(lines: seq<string>)
    ensures forall i | 0 <= i < |lines| :: StyleIdsKnown(PlainRows(lines).runs[i], [])
  {
  }

  lemma TailIsSuffix(lines: seq<string>, rows: nat)
    ensures IsSuffix(Tail(lines, rows), lines) && |Tail(lines, rows)| == Min(rows, |lines|)
  {
  }

  // What a pane showing a plain tape satisfies.
  lemma ShownTapeGood(q: Pane, lines: seq<string>)
    requires lines != [] && (q.cursor.col > 0 ==> lines[|lines| - 1] != "") && q.paletteDiff == None
    requires q.scrollback == PlainRows(lines) && q.screen == PlainRows(Tail(lines, q.rows))
    ensures InterimGood(q) && q.screen.lines == Tail(q.scrollback.lines, q.rows)
    ensures |q.screen.lines| == Min(q.rows, |q.scrollback.lines|)
  {
    TailIsSuffix(lines, q.rows);
    PlainRowsCoherent(lines);
    PlainRowsCoherent(Tail(lines, q.rows));
    PlainRowStyles(Tail(lines, q.rows));
  }

  lemma TapeAppends(t: Tape, s: string)
    requires TapeGood(t)
    ensures AppendOnly(t.lines, Printed(t, s).lines)
  {
    TapeOnlyGrows(t, s);
  }

  lemma OutputShows(state: AnsiState, p: Pane, bytes: seq<byte>)
    requires CursorOnText(p)
    ensures var q := PaneOutput(state, p, bytes).1;
            && q.scrollback == PlainRows(q.scrollback.lines)
            && q.screen == PlainRows(Tail(q.scrollback.lines, q.rows)) && q.paletteDiff == None
  {
    var f := FilterBytes(Filter(state, p.modes, []), bytes);
    var merged := Merged(p.scrollback.lines, p.cursor.col > 0, Lossy(f.text));
    InterimUpdateShows(p, f.modes, merged.0, merged.1, false);
    assert PaneOutput(state, p, bytes).1 == Updated(p, InterimUpdate(p, f.modes, p.rows, merged.0, merged.1), false);
  }

  lemma PrintedPaneGood(p: Pane, q: Pane, s: string)
    requires CursorOnText(p) && CursorOnText(q) && TapeOf(q) == Printed(TapeOf(p), s)
    requires q.scrollback == PlainRows(q.scrollback.lines) && q.paletteDiff == None
    requires q.screen == PlainRows(Tail(q.scrollback.lines, q.rows))
    ensures InterimGood(q) && AppendOnly(p.scrollback.lines, q.scrollback.lines)
    ensures q.screen.lines == Tail(q.scrollback.lines, q.rows) && |q.screen.lines| == Min(q.rows, |q.scrollback.lines|)
  {
    hide Printed, PlainRows, Tail, InterimGood, AppendOnly;
    TapeAppends(TapeOf(p), s);
    ShownTapeGood(q, q.scrollback.lines);
  }

  /** One output: the scrollback only grows, and the screen is exactly its last `min(rows, n)` lines. */
  lemma OutputKeepsGood(state: AnsiState, p: Pane, bytes: seq<byte>)
    requires InterimGood(p)
    ensures var q := PaneOutput(state, p, bytes).1;
            && InterimGood(q) && AppendOnly(p.scrollback.lines, q.scrollback.lines)
            && q.screen.lines == Tail(q.scrollback.lines, q.rows)
            && |q.screen.lines| == Min(q.rows, |q.scrollback.lines|)
  {
    OutputPrints(state, p, bytes);
    OutputShows(state, p, bytes);
    PrintedPaneGood(p, PaneOutput(state, p, bytes).1, Newlines(Lossy(Visible(state, p.modes, bytes))));
  }

  /** A committed resize shows the tail for the new height and keeps the scrollback. */
  lemma ResizeKeepsGood(p: Pane, cols: u32, rows: u32)
    requires InterimGood(p)
    ensures var q := Updated(p.(cols := cols, rows := rows), EngineResize(p, rows), true);
            && InterimGood(q) && q.scrollback.lines == p.scrollback.lines
            && q.screen.lines == Tail(q.scrollback.lines, q.rows)
  {
    var resized := p.(cols := cols, rows := rows);
    assert EngineResize(p, rows) == InterimUpdate(resized, p.modes, resized.rows, p.scrollback.lines, p.cursor.col);
    InterimUpdateShows(resized, p.modes, p.scrollback.lines, p.cursor.col, true);
    ShownTapeGood(Updated(resized, EngineResize(p, rows), true), p.scrollback.lines);
  }

  lemma NewPaneGood(id: string, host: Host, cols: u32, rows: u32)
    ensures InterimGood(NewPane(id, host, cols, rows))
  {
    var p := NewPane(id, host, cols, rows);
    PlainRowsCoherent(p.screen.lines);
    PlainRowsCoherent(p.scrollback.lines);
  }

  lemma GoodStylesInTable(q: Pane, rows: seq<nat>)
    requires Sized(q.screen, |q.screen.lines|)
    requires forall i | 0 <= i < |q.screen.runs| :: StyleIdsKnown(q.screen.runs[i], [])
    ensures StylesInTable(q, rows)
  {
  }

  /** The interim engine meets everything the delivery theorem asks of an engine. */
  lemma InterimOutputPresentable(state: AnsiState, p: Pane, bytes: seq<byte>)
    requires InterimGood(p)
    ensures var u := EngineOutput(state, p, bytes).1;
            var q := Updated(p, u, false);
            && Sized(q.screen, |q.screen.lines|) && StylesInTable(q, IndicesBelow(|q.screen.lines|))
            && PatchWorks(p, u)
  {
    var u := EngineOutput(state, p, bytes).1;
    var q := Updated(p, u, false);
    OutputKeepsGood(state, p, bytes);
    GoodStylesInTable(q, IndicesBelow(|q.screen.lines|));
    NormalizeCoherent(u.screen);
    TruncateCoherent(Normalize(u.screen), p.rows);
    InterimScreen(state, p, bytes);
    GoodStylesInTable(p.(screen := Normalize(u.screen)), RowsToResend(p, u));
  }

  lemma InterimScreen(state: AnsiState, p: Pane, bytes: seq<byte>)
    ensures var u := EngineOutput(state, p, bytes).1;
            && u.colors == p.colors
            && forall i | 0 <= i < |Normalize(u.screen).runs| :: StyleIdsKnown(Normalize(u.screen).runs[i], [])
  {
    var u := EngineOutput(state, p, bytes).1;
    PlainRowsCoherent(u.screen.lines);
    NormalizeCoherent(u.screen);
    PlainRowStyles(u.screen.lines);
  }
}
