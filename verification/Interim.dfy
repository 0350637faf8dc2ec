/** The interim terminal engine: a byte-level ANSI filter, the line tape it prints onto, and the screen as
    the tail of that tape. */
module Interim {
  import opened Types
  import opened Text

  // ---------- the ANSI filter ----------

  datatype AnsiState =
    | Ground
    | Escape
    | Csi(buffer: seq<byte>)
    | Osc(pending: bool)
    | StringControl(pending: bool)

  const ESC: byte := 0x1b

  function SetTracking(m: Modes, mode: MouseTracking, enabled: bool): Modes {
    if enabled then m.(mouseTracking := true, trackingMode := mode)
    else if m.trackingMode == mode then m.(mouseTracking := false, trackingMode := NoTracking)
    else m
  }

  function SetFormat(m: Modes, format: MouseFormat, enabled: bool): Modes {
    if enabled then m.(mouseFormat := format)
    else if m.mouseFormat == format then m.(mouseFormat := X10Format)
    else m
  }

  function ApplyCode(m: Modes, code: nat, enabled: bool): Modes {
    if code == 1 then m.(applicationCursor := enabled)
    else if code == 6 then m.(origin := enabled)
    else if code == 7 then m.(wraparound := enabled)
    else if code == 1000 then SetTracking(m, NormalTracking, enabled)
    else if code == 1002 then SetTracking(m, ButtonTracking, enabled)
    else if code == 1003 then SetTracking(m, AnyTracking, enabled)
    else if code == 1004 then m.(focusReporting := enabled)
    else if code == 1006 then SetFormat(m, SgrFormat, enabled)
    else if code == 1016 then SetFormat(m, SgrPixelsFormat, enabled)
    else if code == 2004 then m.(bracketedPaste := enabled)
    else m
  }

  // Length of the parameter that starts `params`, up to the next `;`.
  function ParamLength(params: seq<byte>): (n: nat)
    ensures n <= |params|
  {
    if params == [] || params[0] == 0x3b then 0 else 1 + ParamLength(params[1..])
  }

  function ApplyParam(m: Modes, private: bool, param: seq<byte>, enabled: bool): Modes {
    var text := FromUtf8(param);
    var code := if text.Some? then ParseUnsigned(text.value, U32_MAX) else None;
    if private && code.Some? then ApplyCode(m, code.value, enabled) else m
  }

  function ApplyParams(m: Modes, private: bool, params: seq<byte>, enabled: bool): Modes
    decreases |params|
  {
    var n := ParamLength(params);
    var next := ApplyParam(m, private, params[..n], enabled);
    if n == |params| then next else ApplyParams(next, private, params[n + 1..], enabled)
  }

  function ApplyModeSet(m: Modes, params: seq<byte>, enabled: bool): Modes {
    var private := params != [] && params[0] == 0x3f;
    ApplyParams(m, private, if private then params[1..] else params, enabled)
  }

  function ApplyCsi(m: Modes, params: seq<byte>, final: byte): Modes {
    if final == 0x68 then ApplyModeSet(m, params, true)
    else if final == 0x6c then ApplyModeSet(m, params, false)
    else m
  }

  /** The filter's configuration: where it is, the modes so far, the text let through so far. */
  datatype Filter = Filter(state: AnsiState, modes: Modes, text: seq<byte>)

  function InString(pending: bool, b: byte): Option<bool> {
    if pending && b == 0x5c then None else Some(b == ESC)
  }

  function FilterByte(f: Filter, b: byte): Filter {
    match f.state
    case Ground =>
      if b == ESC then f.(state := Escape)
      else if b == 0x9b then f.(state := Csi([]))
      else f.(text := f.text + [b])
    case Escape =>
      if b == 0x5b then f.(state := Csi([]))
      else if b == 0x5d then f.(state := Osc(false))
      else if b == 0x50 || b == 0x58 || b == 0x5e || b == 0x5f then f.(state := StringControl(false))
      else if b == 0x3d then f.(state := Ground, modes := f.modes.(applicationKeypad := true))
      else if b == 0x3e then f.(state := Ground, modes := f.modes.(applicationKeypad := false))
      else if b == ESC then f
      else f.(state := Ground)
    case Csi(buffer) =>
      if b == ESC then f.(state := Escape)
      else if 0x40 <= b <= 0x7e then f.(state := Ground, modes := ApplyCsi(f.modes, buffer, b))
      else f.(state := Csi(buffer + [b]))
    case Osc(pending) =>
      if !pending && b == 0x07 then f.(state := Ground)
      else
        var next := InString(pending, b);
        f.(state := if next.None? then Ground else Osc(next.value))
    case StringControl(pending) =>
      var next := InString(pending, b);
      f.(state := if next.None? then Ground else StringControl(next.value))
  }

  function FilterBytes(f: Filter, bytes: seq<byte>): Filter {
    if bytes == [] then f else FilterByte(FilterBytes(f, bytes[..|bytes| - 1]), bytes[|bytes| - 1])
  }

  method SplitAndApply(m: Modes, private: bool, params: seq<byte>, enabled: bool) returns (modes: Modes)
    ensures modes == ApplyParams(m, private, params, enabled)
  {
    modes := m;
    var rest := params;
    while true
      invariant ApplyParams(modes, private, rest, enabled) == ApplyParams(m, private, params, enabled)
      decreases |rest|
    {
      var n := 0;
      while n < |rest| && rest[n] != 0x3b
        invariant n <= |rest| && n + ParamLength(rest[n..]) == ParamLength(rest)
      {
        assert rest[n..][1..] == rest[n + 1..];
        n := n + 1;
      }
      var param := rest[..n];
      modes := ApplyParam(modes, private, param, enabled);
      if n == |rest| {
        return;
      }
      rest := rest[n + 1..];
    }
  }

  class InterimAnsiParser {
    var state: AnsiState

    constructor ()
      ensures state == Ground
    {
      state := Ground;
    }

    method ApplyCsiFinal(modes: Modes, params: seq<byte>, final: byte) returns (r: Modes)
      ensures r == ApplyCsi(modes, params, final)
    {
      if final != 0x68 && final != 0x6c {
        return modes;
      }
      var private := params != [] && params[0] == 0x3f;
      r := SplitAndApply(modes, private, if private then params[1..] else params, final == 0x68);
    }

    method Consume(bytes: seq<byte>, initial: Modes) returns (text: seq<byte>, modes: Modes)
      modifies this
      ensures Filter(state, modes, text) == FilterBytes(Filter(old(state), initial, []), bytes)
    {
      text, modes := [], initial;
      for i := 0 to |bytes|
        invariant Filter(state, modes, text) == FilterBytes(Filter(old(state), initial, []), bytes[..i])
      {
        assert bytes[..i + 1][..i] == bytes[..i];
        var b := bytes[i];
        match state {
          case Ground =>
            if b == ESC { state := Escape; }
            else if b == 0x9b { state := Csi([]); }
            else { text := text + [b]; }
          case Escape =>
            if b == 0x5b { state := Csi([]); }
            else if b == 0x5d { state := Osc(false); }
            else if b == 0x50 || b == 0x58 || b == 0x5e || b == 0x5f { state := StringControl(false); }
            else if b == 0x3d { modes := modes.(applicationKeypad := true); state := Ground; }
            else if b == 0x3e { modes := modes.(applicationKeypad := false); state := Ground; }
            else if b == ESC { state := Escape; }
            else { state := Ground; }
          case Csi(buffer) =>
            if b == ESC { state := Escape; }
            else if 0x40 <= b <= 0x7e {
              modes := ApplyCsiFinal(modes, buffer, b);
              state := Ground;
            } else { state := Csi(buffer + [b]); }
          case Osc(pending) =>
            if pending {
              if b == 0x5c { state := Ground; } else { state := Osc(b == ESC); }
            } else if b == 0x07 { state := Ground; }
            else if b == ESC { state := Osc(true); }
          case StringControl(pending) =>
            if pending {
              if b == 0x5c { state := Ground; } else { state := StringControl(b == ESC); }
            } else if b == ESC { state := StringControl(true); }
        }
      }
      assert bytes[..|bytes|] == bytes;
    }
  }

  lemma {:induction false} FilterSplits(f: Filter, a: seq<byte>, b: seq<byte>)
    ensures FilterBytes(f, a + b) == FilterBytes(FilterBytes(f, a), b)
    decreases |b|
  {
    if b == [] {
      assert a + b == a;
    } else {
      var last := |a + b| - 1;
      assert (a + b)[..last] == a + b[..|b| - 1];
      FilterSplits(f, a, b[..|b| - 1]);
    }
  }

  /** What the filter lets through does not depend on what it let through before. */
  lemma {:induction false} FilterTextShifts(f: Filter, prefix: seq<byte>, bytes: seq<byte>)
    ensures var g := FilterBytes(f.(text := []), bytes);
            FilterBytes(f.(text := prefix), bytes) == g.(text := prefix + g.text)
  {
    if bytes != [] {
      FilterTextShifts(f, prefix, bytes[..|bytes| - 1]);
    }
  }

  // ---------- the line tape ----------

  /** Lines, the last of which may still be open for more characters. */
  datatype Tape = Tape(lines: seq<string>, open: bool)

  predicate IsControl(ch: char) {
    var c := ch as int;
    c < 0x20 || 0x7f <= c < 0xa0
  }

  function PrintChar(t: Tape, ch: char): Tape {
    if ch == '\n' then if t.open then t.(open := false) else Tape(t.lines + [""], false)
    else if ch != '\t' && IsControl(ch) then t
    else if t.open && t.lines != [] then
      var last := |t.lines| - 1;
      Tape(t.lines[last := t.lines[last] + [ch]], true)
    else Tape(t.lines + [[ch]], true)
  }

  function Printed(t: Tape, s: string): Tape {
    if s == "" then t else PrintChar(Printed(t, s[..|s| - 1]), s[|s| - 1])
  }

  function CrLfToLf(s: string): string {
    if s == "" then ""
    else if |s| >= 2 && s[0] == '\r' && s[1] == '\n' then "\n" + CrLfToLf(s[2..])
    else [s[0]] + CrLfToLf(s[1..])
  }

  function CrToLf(s: string): string {
    seq(|s|, i requires 0 <= i < |s| => if s[i] == '\r' then '\n' else s[i])
  }

  lemma CrToLfJoins(a: string, b: string)
    ensures CrToLf(a + b) == CrToLf(a) + CrToLf(b)
  {
  }

  function Newlines(s: string): string {
    CrToLf(CrLfToLf(s))
  }

  function Width(line: string): u32 {
    Min(|line|, U32_MAX)
  }

  function LastWidth(lines: seq<string>): u32 {
    if lines == [] then 0 else Width(lines[|lines| - 1])
  }

  function Merged(before: seq<string>, append: bool, s: string): (seq<string>, u32) {
    var t := Printed(Tape(before, append && before != []), Newlines(s));
    var lines := if t.lines == [] && s == "" then [""] else t.lines;
    (lines, if t.open then LastWidth(t.lines) else 0)
  }

  /** The daemon's loop over the text with its flags; it computes the per-character fold. */
  method MergeInterimPtyOutput(previous: seq<string>, append: bool, output: seq<byte>)
    returns (lines: seq<string>, cursorCol: u32)
    ensures (lines, cursorCol) == Merged(previous, append, Lossy(output))
  {
    lines := previous;
    var raw := Lossy(output);
    var text := Newlines(raw);
    NewlinesEmpty(raw);
    var current: string := "";
    var appending := append && lines != [];
    cursorCol := if appending then LastWidth(lines) else 0;
    var sawOutput, endedWithNewline := false, false;
    ghost var start := Tape(previous, appending);
    for i := 0 to |text|
      invariant appending ==> lines != [] && current == ""
      invariant Printed(start, text[..i])
                == if appending then Tape(lines, true)
                   else if current != "" then Tape(lines + [current], true) else Tape(lines, false)
      invariant cursorCol == if appending then LastWidth(lines) else Width(current)
      invariant endedWithNewline ==> !appending && current == ""
      invariant sawOutput <==> i > 0
    {
      assert text[..i + 1][..i] == text[..i];
      var ch := text[i];
      sawOutput := true;
      if ch == '\n' {
        if appending {
          appending := false;
        } else {
          lines := lines + [current];
        }
        current := "";
        cursorCol := 0;
        endedWithNewline := true;
      } else {
        endedWithNewline := false;
        if ch == '\t' || !IsControl(ch) {
          if appending {
            lines := lines[|lines| - 1 := lines[|lines| - 1] + [ch]];
            cursorCol := LastWidth(lines);
          } else {
            assert current == "" ==> current + [ch] == [ch];
            assert current != "" ==> (lines + [current])[|lines| := current + [ch]] == lines + [current + [ch]];
            current := current + [ch];
            cursorCol := Width(current);
          }
        }
      }
    }
    assert text[..|text|] == text;
    ghost var t := Printed(start, text);
    assert t.lines == if !appending && current != "" then lines + [current] else lines;
    assert t.open <==> appending || current != "";
    assert sawOutput <==> raw != "";
    assert cursorCol == if t.open then LastWidth(t.lines) else 0;
    if !appending && (current != "" || (!sawOutput && lines == [])) {
      lines := lines + [current];
    }
    if endedWithNewline {
      cursorCol := 0;
    }
    assert lines == if t.lines == [] && raw == "" then [""] else t.lines;
  }

  lemma {:induction false} NewlinesEmpty(s: string)
    ensures Newlines(s) == "" <==> s == ""
  {
  }

  predicate CutsCrLf(a: string, b: string) {
    a != "" && a[|a| - 1] == '\r' && b != "" && b[0] == '\n'
  }

  predicate StartsPair(s: string) {
    |s| >= 2 && s[0] == '\r' && s[1] == '\n'
  }

  lemma CrLfHead(s: string)
    requires s != ""
    ensures CrLfToLf(s) == if StartsPair(s) then "\n" + CrLfToLf(s[2..]) else [s[0]] + CrLfToLf(s[1..])
  {
  }

  lemma CrLfSplitsAfter(a: string, b: string, n: nat, head: string)
    requires 0 < n <= |a|
    requires CrLfToLf(a) == head + CrLfToLf(a[n..]) && CrLfToLf(a + b) == head + CrLfToLf((a + b)[n..])
    requires CrLfToLf(a[n..] + b) == CrLfToLf(a[n..]) + CrLfToLf(b)
    ensures CrLfToLf(a + b) == CrLfToLf(a) + CrLfToLf(b)
  {
    assert (a + b)[n..] == a[n..] + b;
    Regroup(head, CrLfToLf(a[n..]), CrLfToLf(b));
  }

  lemma {:induction false} CrLfSplits(a: string, b: string)
    requires !CutsCrLf(a, b)
    ensures CrLfToLf(a + b) == CrLfToLf(a) + CrLfToLf(b)
    decreases |a|
  {
    if a == "" {
      assert a + b == b;
    } else {
      CrLfHead(a);
      CrLfHead(a + b);
      assert StartsPair(a + b) == StartsPair(a);
      var n := if StartsPair(a) then 2 else 1;
      CrLfSplits(a[n..], b);
      CrLfSplitsAfter(a, b, n, if StartsPair(a) then "\n" else [a[0]]);
    }
  }

  lemma {:induction false} NoFinalCrPair(a: string)
    requires a != "" && a[|a| - 1] == '\r'
    ensures CrLfToLf(a) == CrLfToLf(a[..|a| - 1]) + "\r"
    decreases |a|
  {
    var n := |a| - 1;
    CrLfSplits(a[..n], "\r");
    assert a == a[..n] + "\r";
    assert CrLfToLf("\r") == "\r" + CrLfToLf("");
  }

  lemma CutPair(a: string, b: string)
    requires CutsCrLf(a, b)
    ensures CrLfToLf(a + b) == CrLfToLf(a[..|a| - 1]) + CrLfToLf(b)
  {
    var n := |a| - 1;
    var pair := "\r\n" + b[1..];
    assert a + b == a[..n] + pair;
    CrLfSplits(a[..n], pair);
    assert pair[2..] == b[1..];
    assert CrLfToLf(b) == "\n" + CrLfToLf(b[1..]);
  }

  lemma {:induction false} PrintedSplits(t: Tape, a: string, b: string)
    ensures Printed(t, a + b) == Printed(Printed(t, a), b)
    decreases |b|
  {
    if b == "" {
      assert a + b == a;
    } else {
      assert (a + b)[..|a + b| - 1] == a + b[..|b| - 1];
      PrintedSplits(t, a, b[..|b| - 1]);
    }
  }

  /** An open last line is only ever extended; no earlier line changes and none disappears. */
  lemma {:induction false} TapeOnlyGrows(t: Tape, s: string)
    requires t.open ==> t.lines != []
    ensures var r := Printed(t, s);
            && |t.lines| <= |r.lines| && (r.open ==> r.lines != [])
            && (r.open && !t.open ==> |t.lines| < |r.lines|)
            && (forall i | 0 <= i < |t.lines| && (t.open ==> i < |t.lines| - 1) :: r.lines[i] == t.lines[i])
            && (t.open ==> t.lines[|t.lines| - 1] <= r.lines[|t.lines| - 1])
  {
    if s != "" {
      TapeOnlyGrows(t, s[..|s| - 1]);
    }
  }

  // ---------- how much a tape holds ----------

  // A character that leaves a trace on the tape.
  predicate Kept(ch: char) {
    ch == '\n' || ch == '\t' || !IsControl(ch)
  }

  function Weight(s: string): nat {
    if s == "" then 0 else Weight(s[..|s| - 1]) + if Kept(s[|s| - 1]) then 1 else 0
  }

  function TextLength(lines: seq<string>): nat {
    if lines == [] then 0 else TextLength(lines[..|lines| - 1]) + |lines[|lines| - 1]|
  }

  // The printed characters and the finished lines.
  function Bulk(t: Tape): int {
    TextLength(t.lines) + |t.lines| - if t.open then 1 else 0
  }

  lemma PrintCharBulk(t: Tape, ch: char)
    requires t.open ==> t.lines != []
    ensures Bulk(PrintChar(t, ch)) == Bulk(t) + if Kept(ch) then 1 else 0
    ensures PrintChar(t, ch).open ==> PrintChar(t, ch).lines != []
  {
    assert (t.lines + [""])[..|t.lines|] == t.lines && (t.lines + [[ch]])[..|t.lines|] == t.lines;
    if t.open {
      var last := |t.lines| - 1;
      assert t.lines[last := t.lines[last] + [ch]][..last] == t.lines[..last];
    }
  }

  /** What a text adds to a tape does not depend on the tape. */
  lemma {:induction false} PrintedBulk(t: Tape, s: string)
    requires t.open ==> t.lines != []
    ensures Bulk(Printed(t, s)) == Bulk(t) + Weight(s) && (Printed(t, s).open ==> Printed(t, s).lines != [])
  {
    if s != "" {
      PrintedBulk(t, s[..|s| - 1]);
      PrintCharBulk(Printed(t, s[..|s| - 1]), s[|s| - 1]);
    }
  }

  lemma {:induction false} WeightJoins(a: string, b: string)
    ensures Weight(a + b) == Weight(a) + Weight(b)
    decreases |b|
  {
    if b == "" {
      assert a + b == a;
    } else {
      assert (a + b)[..|a + b| - 1] == a + b[..|b| - 1];
      WeightJoins(a, b[..|b| - 1]);
    }
  }
}
