/** The client's attach state as the object that is written to and read from its file, and its cache of
    scrollback ranges. */
module AttachFile {
  import opened Types
  import opened StateText
  import opened Mirror
  import opened ClientState
  import opened StateRoundTrip

  // ---------- writing ----------

  lemma UnlinesFirst(f: Fields, ls: seq<Fields>)
    ensures Unlines([f] + ls) == Line(f) + Unlines(ls)
  {
    UnlinesJoin([f], ls);
    UnlinesLast([], f);
    AddNothing<Fields>([f]);
    AddNothing(Line(f));
  }

  // Appending a line moves it from what is left to what is written.
  lemma Written(out: string, f: Fields, ls: seq<Fields>)
    ensures out + Unlines([f] + ls) == out + Line(f) + Unlines(ls)
  {
    UnlinesFirst(f, ls);
    Regroup(out, Line(f), Unlines(ls));
  }

  method EncodeRuns(row: nat, rs: seq<CellRun>) returns (out: string)
    ensures out == Unlines(RunLines(row, rs))
  {
    hide RunLine, Line;
    out := "";
    var i := 0;
    AddNothing(Unlines(RunLines(row, rs)));
    assert rs[0..] == rs;
    while i < |rs|
      invariant i <= |rs|
      invariant out + Unlines(RunLines(row, rs[i..])) == Unlines(RunLines(row, rs))
    {
      assert rs[i..][1..] == rs[i + 1..];
      Written(out, RunLine(row, rs[i]), RunLines(row, rs[i + 1..]));
      out := out + Line(RunLine(row, rs[i]));
      i := i + 1;
    }
    AddNothing(out);
  }

  method EncodeRows(c: CachedSurface) returns (out: string)
    requires RowsFit(c)
    ensures out == Unlines(RowsLines(c, 0))
  {
    hide RowLine, MetaLine, RunLines, Line, Unlines;
    out := "";
    AddNothing(Unlines(RowsLines(c, 0)));
    var row := 0;
    while row < c.view.rows
      invariant row <= c.view.rows
      invariant out + Unlines(RowsLines(c, row)) == Unlines(RowsLines(c, 0))
    {
      RowWritten(out, c, row);
      out := out + Line(RowLine(row, c.view.screen.lines[row])) + Line(MetaLine(c, row));
      var runs := EncodeRuns(row, c.view.screen.runs[row]);
      out := out + runs;
      row := row + 1;
    }
    UnlinesNothing();
    AddNothing(out);
  }

  lemma UnlinesNothing()
    ensures Unlines([]) == ""
  {
  }

  lemma RowWritten(out: string, c: CachedSurface, row: nat)
    requires RowsFit(c) && row < c.view.rows
    ensures out + Unlines(RowsLines(c, row))
            == out + Line(RowLine(row, c.view.screen.lines[row])) + Line(MetaLine(c, row))
               + Unlines(RunLines(row, c.view.screen.runs[row])) + Unlines(RowsLines(c, row + 1))
  {
    hide RowLine, MetaLine, RunLines, Line, Unlines, MetaAt;
    var text, meta := RowLine(row, c.view.screen.lines[row]), MetaLine(c, row);
    var runs, rest := RunLines(row, c.view.screen.runs[row]), RowsLines(c, row + 1);
    UnlinesJoin([text] + [meta] + runs, rest);
    UnlinesJoin([text] + [meta], runs);
    UnlinesJoin([text], [meta]);
    UnlinesOne(text);
    UnlinesOne(meta);
    Associate(out, Line(text), Line(meta), Unlines(runs), Unlines(rest));
  }

  lemma UnlinesOne(f: Fields)
    ensures Unlines([f]) == Line(f)
  {
    UnlinesLast([], f);
    AddNothing<Fields>([f]);
    AddNothing(Line(f));
  }

  lemma Associate<T>(a: seq<T>, b: seq<T>, c: seq<T>, d: seq<T>, e: seq<T>)
    ensures a + (b + c + d + e) == a + b + c + d + e
  {
    Regroup(a, b, c);
    Regroup(a, b + c, d);
    Regroup(a, b + c + d, e);
  }

  method EncodeStyles(ss: seq<Style>) returns (out: string)
    ensures out == Unlines(StyleLines(ss))
  {
    hide StyleLine, Line;
    out := "";
    var i := 0;
    AddNothing(Unlines(StyleLines(ss)));
    assert ss[0..] == ss;
    while i < |ss|
      invariant i <= |ss|
      invariant out + Unlines(StyleLines(ss[i..])) == Unlines(StyleLines(ss))
    {
      assert ss[i..][1..] == ss[i + 1..];
      Written(out, StyleLine(ss[i]), StyleLines(ss[i + 1..]));
      out := out + Line(StyleLine(ss[i]));
      i := i + 1;
    }
    AddNothing(out);
  }

  method EncodeHyperlinks(hs: seq<Hyperlink>) returns (out: string)
    ensures out == Unlines(HyperlinkLines(hs))
  {
    hide HyperlinkLine, Line;
    out := "";
    var i := 0;
    AddNothing(Unlines(HyperlinkLines(hs)));
    assert hs[0..] == hs;
    while i < |hs|
      invariant i <= |hs|
      invariant out + Unlines(HyperlinkLines(hs[i..])) == Unlines(HyperlinkLines(hs))
    {
      assert hs[i..][1..] == hs[i + 1..];
      Written(out, HyperlinkLine(hs[i]), HyperlinkLines(hs[i + 1..]));
      out := out + Line(HyperlinkLine(hs[i]));
      i := i + 1;
    }
    AddNothing(out);
  }

  method EncodeFixed(v: View) returns (out: string)
    ensures out == Unlines(FixedLines(v))
  {
    hide CursorLine, ModesLine, ColorsLine, HexText, Line, Unlines;
    var two := [CursorLine(v.cursor)] + [ModesLine(v.modes)];
    UnlinesOne(CursorLine(v.cursor));
    UnlinesLast([CursorLine(v.cursor)], ModesLine(v.modes));
    UnlinesLast(two, ["title", HexText(v.title)]);
    UnlinesLast(two + [["title", HexText(v.title)]], ["pwd", HexText(v.cwd)]);
    UnlinesLast(two + [["title", HexText(v.title)]] + [["pwd", HexText(v.cwd)]], ColorsLine(v.colors));
    out := Line(CursorLine(v.cursor));
    out := out + Line(ModesLine(v.modes));
    out := out + Line(["title", HexText(v.title)]);
    out := out + Line(["pwd", HexText(v.cwd)]);
    out := out + Line(ColorsLine(v.colors));
  }

  method EncodeSurface(c: CachedSurface) returns (out: string)
    requires RowsFit(c)
    ensures out == Unlines(SurfaceLines(c))
  {
    hide SurfaceLine, FixedLines, StyleLines, HyperlinkLines, RowsLines, Line, Unlines;
    var fixed := EncodeFixed(c.view);
    var styles := EncodeStyles(c.view.styles);
    var hyperlinks := EncodeHyperlinks(c.hyperlinks);
    var rows := EncodeRows(c);
    out := Line(SurfaceLine(c.view));
    out := out + fixed + styles + hyperlinks + rows;
    out := out + Line(["end"]);
    UnlinesJoin(FixedLines(c.view), StyleLines(c.view.styles));
    UnlinesJoin(FixedLines(c.view) + StyleLines(c.view.styles), HyperlinkLines(c.hyperlinks));
    UnlinesJoin(FixedLines(c.view) + StyleLines(c.view.styles) + HyperlinkLines(c.hyperlinks), RowsLines(c, 0));
    UnlinesLast(BodyLines(c), ["end"]);
    UnlinesFirst(SurfaceLine(c.view), BodyLines(c) + [["end"]]);
    Associate(Line(SurfaceLine(c.view)), fixed, styles, hyperlinks, rows);
    Regroup(Line(SurfaceLine(c.view)), fixed + styles + hyperlinks + rows, Line(["end"]));
  }

  // ---------- reading ----------

  function Shifted(r: Option<(CachedSurface, nat)>, n: nat): Option<(CachedSurface, nat)> {
    if r.None? then None else Some((r.value.0, r.value.1 + n))
  }

  lemma SplitAllAt(lines: seq<string>, i: nat)
    requires i < |lines|
    ensures SplitAll(lines[i..]) != [] && SplitAll(lines[i..])[0] == Split(lines[i])
    ensures SplitAll(lines[i..])[1..] == SplitAll(lines[i + 1..])
  {
  }

  method DecodeBody(lines: seq<string>, start: nat, head: CachedSurface)
    returns (surface: Option<CachedSurface>, next: nat)
    requires start <= |lines| && RowsFit(head)
    ensures surface.Some? ==> start <= next <= |lines| && RowsFit(surface.value)
    ensures ReadBody(SplitAll(lines[start..]), head)
            == if surface.None? then None else Some((surface.value, next - start))
  {
    hide ReadBodyLine, SplitAll, Split;
    var c := head;
    next := start;
    while next < |lines|
      invariant start <= next <= |lines| && RowsFit(c)
      invariant ReadBody(SplitAll(lines[start..]), head)
                == Shifted(ReadBody(SplitAll(lines[next..]), c), next - start)
    {
      SplitAllAt(lines, next);
      var parts := Split(lines[next]);
      next := next + 1;
      if parts == ["end"] {
        return Some(c), next;
      }
      var read := ReadBodyLine(c, parts);
      if read.None? {
        return None, next;
      }
      c := read.value;
    }
    assert SplitAll(lines[next..]) == [] by { NoLines(lines); }
    surface := None;
  }

  lemma NoLines(lines: seq<string>)
    ensures SplitAll(lines[|lines|..]) == []
  {
  }

  method DecodeSurface(lines: seq<string>, start: nat) returns (surface: Option<CachedSurface>, next: nat)
    requires start < |lines|
    ensures surface.Some? ==> start < next <= |lines|
    ensures SplitAll(lines[start..]) != []
    ensures ReadSurface(SplitAll(lines[start..]))
            == if surface.None? then None else Some((surface.value, next - start))
  {
    hide ReadSurfaceLine, ReadBody, SplitAll, Split, Usable, Canonical;
    SplitAllAt(lines, start);
    next := start;
    var head := ReadSurfaceLine(Split(lines[start]));
    if head.None? {
      return None, next;
    }
    var body;
    body, next := DecodeBody(lines, start + 1, head.value);
    if body.None? {
      return None, next;
    }
    surface := Finish(body.value);
  }

  method DecodeText(text: string) returns (state: Option<AttachState>)
    ensures state == Decode(text)
  {
    hide KnownHeader, ReadScope, ReadScrollback, ReadSurface, SplitAll, Split, Lines, KeywordOf;
    var lines := Lines(text);
    if lines == [] || !KnownHeader(lines[0]) {
      return None;
    }
    var scope: Option<Scope> := None;
    var surfaces: seq<CachedSurface> := [];
    var scrollbacks: seq<CachedScrollback> := [];
    var next := 1;
    while next < |lines|
      invariant 1 <= next <= |lines|
      invariant Decode(text) == ReadLines(SplitAll(lines[next..]), AttachState(scope, surfaces, scrollbacks))
      decreases |lines| - next
    {
      SplitAllAt(lines, next);
      var parts := Split(lines[next]);
      var key := KeywordOf(parts[0]);
      if key == ScopeKey {
        var read := if |parts| >= 2 && parts[1] == "socket" then ReadScope(parts) else None;
        if read.None? {
          return None;
        }
        scope, next := read, next + 1;
      } else if key == ScrollbackKey {
        var read := ReadScrollback(parts);
        if read.None? {
          return None;
        }
        scrollbacks, next := scrollbacks + [read.value], next + 1;
      } else if key == SurfaceKey {
        var surface, after := DecodeSurface(lines, next);
        if surface.None? {
          return None;
        }
        SplitAllFrom(lines, next, after);
        surfaces, next := surfaces + [surface.value], after;
      } else {
        return None;
      }
    }
    NoLines(lines);
    state := Some(AttachState(scope, surfaces, scrollbacks));
  }

  lemma SplitAllFrom(lines: seq<string>, a: nat, b: nat)
    requires a <= b <= |lines|
    ensures |SplitAll(lines[a..])| == |lines| - a
    ensures SplitAll(lines[a..])[b - a..] == SplitAll(lines[b..])
  {
  }

  // ---------- the state object ----------

  datatype Chunk = Chunk(paneId: string, version: u64, startLine: u64, lines: seq<string>, totalLines: u64)

  function ChunkEntry(c: Chunk): CachedScrollback {
    CachedScrollback(c.paneId, c.version, c.startLine, Min(|c.lines|, U32_MAX), c.totalLines)
  }

  predicate SameRange(a: CachedScrollback, paneId: string, startLine: u64, lineCount: u32) {
    a.paneId == paneId && a.startLine == startLine && a.lineCount == lineCount
  }

  // The first entry for a range.
  function FindRange(ss: seq<CachedScrollback>, paneId: string, startLine: u64, lineCount: u32): (r: Option<nat>)
    ensures r.Some? ==> r.value < |ss| && SameRange(ss[r.value], paneId, startLine, lineCount)
    ensures r.None? ==> forall i | 0 <= i < |ss| :: !SameRange(ss[i], paneId, startLine, lineCount)
  {
    if ss == [] then None
    else if SameRange(ss[0], paneId, startLine, lineCount) then Some(0)
    else
      var rest := FindRange(ss[1..], paneId, startLine, lineCount);
      if rest.None? then None else Some(rest.value + 1)
  }

  /** `cached_scrollback_version`. */
  function CachedVersion(ss: seq<CachedScrollback>, paneId: string, startLine: u64, lineCount: u32): Option<u64> {
    var i := FindRange(ss, paneId, startLine, lineCount);
    if i.None? then None else Some(ss[i.value].version)
  }

  ghost predicate RangesDistinct(ss: seq<CachedScrollback>) {
    forall i, j | 0 <= i < j < |ss| :: !SameRange(ss[j], ss[i].paneId, ss[i].startLine, ss[i].lineCount)
  }

  function WithEntry(ss: seq<CachedScrollback>, e: CachedScrollback): seq<CachedScrollback> {
    var i := FindRange(ss, e.paneId, e.startLine, e.lineCount);
    if i.Some? then ss[i.value := e] else ss + [e]
  }

  lemma RangeFound(ss: seq<CachedScrollback>, k: nat, paneId: string, startLine: u64, lineCount: u32)
    requires RangesDistinct(ss) && k < |ss| && SameRange(ss[k], paneId, startLine, lineCount)
    ensures FindRange(ss, paneId, startLine, lineCount) == Some(k)
  {
    var i := FindRange(ss, paneId, startLine, lineCount).value;
    if i != k {
      assert false;
    }
  }

  /** Caching keeps one entry per range, answers for its range with the new version, and for others as before. */
  lemma CacheIsAMap(ss: seq<CachedScrollback>, e: CachedScrollback, paneId: string, startLine: u64, lineCount: u32)
    requires RangesDistinct(ss)
    ensures RangesDistinct(WithEntry(ss, e))
    ensures CachedVersion(WithEntry(ss, e), paneId, startLine, lineCount)
            == if SameRange(e, paneId, startLine, lineCount) then Some(e.version)
               else CachedVersion(ss, paneId, startLine, lineCount)
  {
    var next := WithEntry(ss, e);
    var at := FindRange(ss, e.paneId, e.startLine, e.lineCount);
    var place := if at.Some? then at.value else |ss|;
    assert next[place] == e;
    if SameRange(e, paneId, startLine, lineCount) {
      RangeFound(next, place, paneId, startLine, lineCount);
    } else if FindRange(ss, paneId, startLine, lineCount).Some? {
      var k := FindRange(ss, paneId, startLine, lineCount).value;
      assert next[k] == ss[k];
      RangeFound(next, k, paneId, startLine, lineCount);
    }
  }

  /** A chunk is found under its pane, first line and number of lines, at its version. */
  lemma ChunkIsFound(ss: seq<CachedScrollback>, c: Chunk)
    requires RangesDistinct(ss) && |c.lines| <= U32_MAX
    ensures CachedVersion(WithEntry(ss, ChunkEntry(c)), c.paneId, c.startLine, |c.lines|) == Some(c.version)
    ensures CachedScrollback(c.paneId, c.version, c.startLine, |c.lines|, c.totalLines) in WithEntry(ss, ChunkEntry(c))
  {
    CacheIsAMap(ss, ChunkEntry(c), c.paneId, c.startLine, |c.lines|);
    var at := FindRange(ss, c.paneId, c.startLine, |c.lines|);
    assert WithEntry(ss, ChunkEntry(c))[if at.Some? then at.value else |ss|] == ChunkEntry(c);
  }

  class ClientAttachState {
    var scope: Option<Scope>
    var surfaces: seq<CachedSurface>
    var scrollbacks: seq<CachedScrollback>

    constructor (s: AttachState)
      ensures State() == s
    {
      scope, surfaces, scrollbacks := s.scope, s.surfaces, s.scrollbacks;
    }

    function State(): AttachState
      reads this
    {
      AttachState(scope, surfaces, scrollbacks)
    }

    method EncodeScrollbacks() returns (out: string)
      ensures out == Unlines(ScrollbackLines(scrollbacks))
    {
      hide ScrollbackLine, Line;
      out := "";
      var i := 0;
      AddNothing(Unlines(ScrollbackLines(scrollbacks)));
      assert scrollbacks[0..] == scrollbacks;
      while i < |scrollbacks|
        invariant i <= |scrollbacks|
        invariant out + Unlines(ScrollbackLines(scrollbacks[i..])) == Unlines(ScrollbackLines(scrollbacks))
      {
        assert scrollbacks[i..][1..] == scrollbacks[i + 1..];
        Written(out, ScrollbackLine(scrollbacks[i]), ScrollbackLines(scrollbacks[i + 1..]));
        out := out + Line(ScrollbackLine(scrollbacks[i]));
        i := i + 1;
      }
      AddNothing(out);
    }

    method EncodeSurfaces() returns (out: string)
      requires StateFits(State())
      ensures out == Unlines(SurfacesLines(surfaces))
    {
      hide SurfaceLines, Unlines;
      out := "";
      var i := 0;
      AddNothing(Unlines(SurfacesLines(surfaces)));
      assert surfaces[0..] == surfaces;
      while i < |surfaces|
        invariant i <= |surfaces|
        invariant out + Unlines(SurfacesLines(surfaces[i..])) == Unlines(SurfacesLines(surfaces))
      {
        assert surfaces[i..][1..] == surfaces[i + 1..];
        var surface := EncodeSurface(surfaces[i]);
        UnlinesJoin(SurfaceLines(surfaces[i]), SurfacesLines(surfaces[i + 1..]));
        Regroup(out, surface, Unlines(SurfacesLines(surfaces[i + 1..])));
        out := out + surface;
        i := i + 1;
      }
      UnlinesNothing();
      AddNothing(out);
    }

    /** The file text is what `ClientState.Encode` specifies, so `StateRoundTrip.RoundTrip` applies to it. */
    method EncodeText() returns (text: string)
      requires StateFits(State())
      ensures text == Encode(State())
    {
      hide ScopeLine, ScrollbackLines, SurfacesLines, Line, Unlines;
      var scopeText := "";
      if scope.Some? {
        UnlinesOne(ScopeLine(scope.value));
        scopeText := Line(ScopeLine(scope.value));
      } else {
        UnlinesNothing();
      }
      var scrolls := EncodeScrollbacks();
      var tables := EncodeSurfaces();
      UnlinesJoin(ScopeLines(scope), ScrollbackLines(scrollbacks));
      UnlinesJoin(ScopeLines(scope) + ScrollbackLines(scrollbacks), SurfacesLines(surfaces));
      text := Line(HEADER) + (scopeText + scrolls + tables);
    }

    method CacheScrollbackChunk(chunk: Chunk)
      modifies this`scrollbacks
      ensures scrollbacks
              == if chunk.lines == [] then old(scrollbacks) else WithEntry(old(scrollbacks), ChunkEntry(chunk))
    {
      if chunk.lines == [] {
        return;
      }
      var cached := ChunkEntry(chunk);
      var existing := FindRange(scrollbacks, cached.paneId, cached.startLine, cached.lineCount);
      if existing.Some? {
        scrollbacks := scrollbacks[existing.value := cached];
      } else {
        scrollbacks := scrollbacks + [cached];
      }
    }

    /** State cached from another socket is never mixed with this one's. */
    method ApplyScope(to: Option<Scope>)
      modifies this
      ensures State() == if old(scope) == to then old(State()) else AttachState(to, [], [])
    {
      if scope != to {
        surfaces, scrollbacks := [], [];
      }
      scope := to;
    }
  }
}
