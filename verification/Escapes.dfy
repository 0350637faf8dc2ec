/** What byte sequences mean to the interim engine: which escape sequence sets which mode, which ones are silent,
    and what ordinary text prints. */
module Escapes {
  import opened Types
  import opened Text
  import opened PaneUpdate
  import opened Interim
  import opened InterimEngine

  predicate IsAscii(s: string) {
    forall i | 0 <= i < |s| :: s[i] < 0x80 as char
  }

  // The bytes of plain text.
  function Ascii(s: string): (bytes: seq<byte>)
    requires IsAscii(s)
    ensures |bytes| == |s| && forall i | 0 <= i < |s| :: bytes[i] == s[i] as int
  {
    seq(|s|, i requires 0 <= i < |s| => s[i] as int)
  }

  lemma {:induction false} AsciiIsUtf8(s: string)
    requires IsAscii(s)
    ensures FromUtf8(Ascii(s)) == Some(s)
  {
    if s != "" {
      assert Ascii(s)[1..] == Ascii(s[1..]);
      AsciiIsUtf8(s[1..]);
      assert s == [s[0]] + s[1..];
    }
  }

  lemma First(f: Filter, b: byte, rest: seq<byte>)
    ensures FilterBytes(f, [b] + rest) == FilterBytes(FilterByte(f, b), rest)
  {
    FilterSplits(f, [b], rest);
    One(f, b);
  }

  lemma One(f: Filter, b: byte)
    ensures FilterBytes(f, [b]) == FilterByte(f, b)
  {
    assert [b][..|[b]| - 1] == [] && FilterBytes(f, []) == f;
  }

  // Bytes that can stand between `ESC [` and the final byte.
  predicate ParamBytes(p: seq<byte>) {
    forall i | 0 <= i < |p| :: p[i] != 0x1b && !(0x40 <= p[i] <= 0x7e)
  }

  lemma {:induction false} Collects(f: Filter, buffer: seq<byte>, p: seq<byte>)
    requires f.state == Csi(buffer) && ParamBytes(p)
    ensures FilterBytes(f, p) == f.(state := Csi(buffer + p))
  {
    if p == [] {
      assert buffer + p == buffer;
    } else {
      var before, last := p[..|p| - 1], p[|p| - 1];
      Collects(f, buffer, before);
      assert buffer + before + [last] == buffer + p;
    }
  }

  function Sequence(p: seq<byte>, final: byte): seq<byte> {
    [0x1b] + ([0x5b] + (p + [final]))
  }

  // A whole control sequence in the text.
  lemma CsiApplies(f: Filter, p: seq<byte>, final: byte)
    requires f.state == Ground && ParamBytes(p) && 0x40 <= final <= 0x7e
    ensures FilterBytes(f, Sequence(p, final)) == f.(modes := ApplyCsi(f.modes, p, final))
  {
    hide ApplyCsi;
    First(f, 0x1b, [0x5b] + (p + [final]));
    var e := f.(state := Escape);
    First(e, 0x5b, p + [final]);
    var c := f.(state := Csi([]));
    FilterSplits(c, p, [final]);
    Collects(c, [], p);
    assert [] + p == p;
    One(f.(state := Csi(p)), final);
  }

  /** Setting and resetting private modes: `ESC [ ? params h` and `ESC [ ? params l`. */
  function Private(params: seq<byte>, on: bool): seq<byte> {
    Sequence([0x3f] + params, if on then 0x68 else 0x6c)
  }

  lemma NoSeparator(p: seq<byte>)
    requires 0x3b !in p
    ensures ParamLength(p) == |p|
  {
  }

  lemma OneParam(m: Modes, private: bool, p: seq<byte>, on: bool)
    requires 0x3b !in p
    ensures ApplyParams(m, private, p, on) == ApplyParam(m, private, p, on)
  {
    NoSeparator(p);
    assert p[..|p|] == p;
  }

  lemma PrivateApplies(f: Filter, p: seq<byte>, on: bool)
    requires f.state == Ground && ParamBytes(p)
    ensures FilterBytes(f, Private(p, on)) == f.(modes := ApplyParams(f.modes, true, p, on))
  {
    CsiApplies(f, [0x3f] + p, if on then 0x68 else 0x6c);
    assert ([0x3f] + p)[1..] == p;
  }

  // A number without leading zeros.
  lemma CodeApplies(f: Filter, code: nat, on: bool)
    requires f.state == Ground
    ensures FilterBytes(f, Private(Ascii(PrintNat(code)), on))
            == f.(modes := if code <= U32_MAX then ApplyCode(f.modes, code, on) else f.modes)
  {
    hide ApplyCode, ApplyParams;
    var digits := PrintNat(code);
    PrivateApplies(f, Ascii(digits), on);
    OneParam(f.modes, true, Ascii(digits), on);
    AsciiIsUtf8(digits);
    UnsignedRoundTrip(code, U32_MAX);
  }

  lemma CodesPrinted()
    ensures PrintNat(1) == "1" && PrintNat(6) == "6" && PrintNat(7) == "7"
    ensures PrintNat(1000) == "1000" && PrintNat(1002) == "1002" && PrintNat(1003) == "1003"
    ensures PrintNat(1004) == "1004" && PrintNat(1006) == "1006" && PrintNat(1016) == "1016"
    ensures PrintNat(2004) == "2004"
  {
    assert PrintNat(10) == "10" && PrintNat(20) == "20";
    assert PrintNat(100) == "100" && PrintNat(101) == "101" && PrintNat(200) == "200";
  }

  lemma KnownCodeApplies(f: Filter, digits: string, code: nat, on: bool)
    requires f.state == Ground && digits == PrintNat(code) && code <= U32_MAX && IsAscii(digits)
    ensures FilterBytes(f, Private(Ascii(digits), on)) == f.(modes := ApplyCode(f.modes, code, on))
  {
    CodeApplies(f, code, on);
  }

  /** The switches: each sets exactly its own field. */
  lemma SwitchesSet(f: Filter, on: bool)
    requires f.state == Ground
    ensures FilterBytes(f, Private(Ascii("1"), on)) == f.(modes := f.modes.(applicationCursor := on))
    ensures FilterBytes(f, Private(Ascii("6"), on)) == f.(modes := f.modes.(origin := on))
    ensures FilterBytes(f, Private(Ascii("7"), on)) == f.(modes := f.modes.(wraparound := on))
    ensures FilterBytes(f, Private(Ascii("1004"), on)) == f.(modes := f.modes.(focusReporting := on))
    ensures FilterBytes(f, Private(Ascii("2004"), on)) == f.(modes := f.modes.(bracketedPaste := on))
  {
    hide FilterBytes, Private, PrintNat;
    CodesPrinted();
    KnownCodeApplies(f, "1", 1, on);
    KnownCodeApplies(f, "6", 6, on);
    KnownCodeApplies(f, "7", 7, on);
    KnownCodeApplies(f, "1004", 1004, on);
    KnownCodeApplies(f, "2004", 2004, on);
  }

  /** Mouse tracking and format: setting one replaces the one in force, resetting works only on the one in force. */
  lemma MouseModesSet(f: Filter)
    requires f.state == Ground
    ensures FilterBytes(f, Private(Ascii("1000"), true))
            == f.(modes := f.modes.(mouseTracking := true, trackingMode := NormalTracking))
    ensures FilterBytes(f, Private(Ascii("1002"), true))
            == f.(modes := f.modes.(mouseTracking := true, trackingMode := ButtonTracking))
    ensures FilterBytes(f, Private(Ascii("1003"), true))
            == f.(modes := f.modes.(mouseTracking := true, trackingMode := AnyTracking))
    ensures FilterBytes(f, Private(Ascii("1006"), true)) == f.(modes := f.modes.(mouseFormat := SgrFormat))
    ensures FilterBytes(f, Private(Ascii("1016"), true)) == f.(modes := f.modes.(mouseFormat := SgrPixelsFormat))
  {
    hide FilterBytes, Private, PrintNat;
    CodesPrinted();
    KnownCodeApplies(f, "1000", 1000, true);
    KnownCodeApplies(f, "1002", 1002, true);
    KnownCodeApplies(f, "1003", 1003, true);
    KnownCodeApplies(f, "1006", 1006, true);
    KnownCodeApplies(f, "1016", 1016, true);
  }

  lemma MouseModesReset(f: Filter)
    requires f.state == Ground
    ensures FilterBytes(f, Private(Ascii("1000"), false))
            == if f.modes.trackingMode == NormalTracking
               then f.(modes := f.modes.(mouseTracking := false, trackingMode := NoTracking)) else f
    ensures FilterBytes(f, Private(Ascii("1002"), false))
            == if f.modes.trackingMode == ButtonTracking
               then f.(modes := f.modes.(mouseTracking := false, trackingMode := NoTracking)) else f
    ensures FilterBytes(f, Private(Ascii("1003"), false))
            == if f.modes.trackingMode == AnyTracking
               then f.(modes := f.modes.(mouseTracking := false, trackingMode := NoTracking)) else f
    ensures FilterBytes(f, Private(Ascii("1006"), false))
            == if f.modes.mouseFormat == SgrFormat then f.(modes := f.modes.(mouseFormat := X10Format)) else f
    ensures FilterBytes(f, Private(Ascii("1016"), false))
            == if f.modes.mouseFormat == SgrPixelsFormat then f.(modes := f.modes.(mouseFormat := X10Format)) else f
  {
    hide FilterBytes, Private, PrintNat;
    CodesPrinted();
    KnownCodeApplies(f, "1000", 1000, false);
    KnownCodeApplies(f, "1002", 1002, false);
    KnownCodeApplies(f, "1003", 1003, false);
    KnownCodeApplies(f, "1006", 1006, false);
    KnownCodeApplies(f, "1016", 1016, false);
  }

  /** Every other number, and a parameter that is no number of 32 bits, changes nothing. */
  lemma OtherCodesIgnored(f: Filter, code: nat, on: bool)
    requires f.state == Ground && code !in {1, 6, 7, 1000, 1002, 1003, 1004, 1006, 1016, 2004}
    ensures FilterBytes(f, Private(Ascii(PrintNat(code)), on)) == f
  {
    hide FilterBytes, Private, PrintNat;
    CodeApplies(f, code, on);
  }

  lemma NoNumberIgnored(f: Filter, p: seq<byte>, on: bool)
    requires f.state == Ground && ParamBytes(p) && 0x3b !in p
    requires FromUtf8(p).None? || ParseUnsigned(FromUtf8(p).value, U32_MAX).None?
    ensures FilterBytes(f, Private(p, on)) == f
  {
    PrivateApplies(f, p, on);
    OneParam(f.modes, true, p, on);
  }

  // Leading zeros or a plus sign do not matter.
  lemma SameNumber(f: Filter, p: seq<byte>, code: u32, on: bool)
    requires f.state == Ground && ParamBytes(p) && 0x3b !in p
    requires FromUtf8(p).Some? && ParseUnsigned(FromUtf8(p).value, U32_MAX) == Some(code)
    ensures FilterBytes(f, Private(p, on)) == FilterBytes(f, Private(Ascii(PrintNat(code)), on))
  {
    hide ApplyCode, ApplyParams, Private, FilterBytes, PrintNat;
    PrivateApplies(f, p, on);
    OneParam(f.modes, true, p, on);
    CodeApplies(f, code, on);
  }

  // Without the question mark nothing is set.
  lemma {:induction false} PublicParams(m: Modes, p: seq<byte>, on: bool)
    ensures ApplyParams(m, false, p, on) == m
    decreases |p|
  {
    var n := ParamLength(p);
    if n < |p| {
      PublicParams(m, p[n + 1..], on);
    }
  }

  /** Control sequences without the question mark, or with another final byte than `h` or `l`, change nothing. */
  lemma OtherSequencesIgnored(f: Filter, p: seq<byte>, final: byte)
    requires f.state == Ground && ParamBytes(p) && 0x40 <= final <= 0x7e
    requires p == [] || p[0] != 0x3f || (final != 0x68 && final != 0x6c)
    ensures FilterBytes(f, Sequence(p, final)) == f
  {
    CsiApplies(f, p, final);
    PublicParams(f.modes, p, final == 0x68);
  }

  // ---------- several parameters ----------

  lemma {:induction false} ParamsInOrder(m: Modes, private: bool, a: seq<byte>, b: seq<byte>, on: bool)
    ensures ApplyParams(m, private, a + ([0x3b] + b), on)
            == ApplyParams(ApplyParams(m, private, a, on), private, b, on)
    decreases |a|
  {
    var all := a + ([0x3b] + b);
    FirstParam(a, [0x3b] + b);
    var n := ParamLength(a);
    assert all[..n] == a[..n];
    if n == |a| {
      assert all[n + 1..] == b;
    } else {
      assert all[n + 1..] == a[n + 1..] + ([0x3b] + b);
      ParamsInOrder(ApplyParam(m, private, a[..n], on), private, a[n + 1..], b, on);
    }
  }

  lemma {:induction false} FirstParam(a: seq<byte>, rest: seq<byte>)
    requires rest != [] && rest[0] == 0x3b
    ensures ParamLength(a + rest) == ParamLength(a)
  {
    if a == [] {
      assert a + rest == rest;
    } else {
      assert (a + rest)[1..] == a[1..] + rest;
      FirstParam(a[1..], rest);
    }
  }

  /** Several parameters act like as many sequences, in order. */
  lemma SeveralInOrder(f: Filter, a: seq<byte>, b: seq<byte>, on: bool)
    requires f.state == Ground && ParamBytes(a) && ParamBytes(b)
    ensures FilterBytes(f, Private(a + ([0x3b] + b), on)) == FilterBytes(f, Private(a, on) + Private(b, on))
  {
    hide ApplyParams, Private, FilterBytes;
    var both := a + ([0x3b] + b);
    assert ParamBytes(both);
    PrivateApplies(f, both, on);
    ParamsInOrder(f.modes, true, a, b, on);
    FilterSplits(f, Private(a, on), Private(b, on));
    PrivateApplies(f, a, on);
    PrivateApplies(f.(modes := ApplyParams(f.modes, true, a, on)), b, on);
  }

  // ---------- the other sequences ----------

  /** `ESC =` and `ESC >` switch the keypad; every other single escape is dropped. */
  lemma SingleEscapes(f: Filter, b: byte)
    requires f.state == Ground && b !in {0x5b, 0x5d, 0x50, 0x58, 0x5e, 0x5f, 0x1b}
    ensures FilterBytes(f, [0x1b, b])
            == if b == 0x3d then f.(modes := f.modes.(applicationKeypad := true))
               else if b == 0x3e then f.(modes := f.modes.(applicationKeypad := false))
               else f
  {
    assert [0x1b, b] == [0x1b] + [b];
    First(f, 0x1b, [b]);
    One(f.(state := Escape), b);
  }

  lemma Introduces(f: Filter, rest: seq<byte>)
    requires f.state == Ground
    ensures FilterBytes(f, [0x1b] + rest) == FilterBytes(f.(state := Escape), rest)
    ensures FilterBytes(f, [0x1b] + ([0x5b] + rest)) == FilterBytes(f.(state := Csi([])), rest)
    ensures FilterBytes(f, [0x9b] + rest) == FilterBytes(f.(state := Csi([])), rest)
  {
    hide FilterBytes;
    First(f, 0x1b, rest);
    First(f, 0x1b, [0x5b] + rest);
    First(f.(state := Escape), 0x5b, rest);
    First(f, 0x9b, rest);
  }

  /** An escape starts over, also inside a control sequence, and the single byte 0x9b is `ESC [`. */
  lemma EscapeStartsOver(f: Filter, p: seq<byte>, rest: seq<byte>)
    requires f.state == Ground && ParamBytes(p)
    ensures FilterBytes(f, [0x1b] + ([0x1b] + rest)) == FilterBytes(f, [0x1b] + rest)
    ensures FilterBytes(f, [0x1b] + ([0x5b] + (p + ([0x1b] + rest)))) == FilterBytes(f, [0x1b] + rest)
    ensures FilterBytes(f, [0x9b] + rest) == FilterBytes(f, [0x1b] + ([0x5b] + rest))
  {
    hide FilterBytes;
    Introduces(f, rest);
    Introduces(f, [0x1b] + rest);
    First(f.(state := Escape), 0x1b, rest);
    Introduces(f, p + ([0x1b] + rest));
    FilterSplits(f.(state := Csi([])), p, [0x1b] + rest);
    Collects(f.(state := Csi([])), [], p);
    First(f.(state := Csi([] + p)), 0x1b, rest);
  }

  // `ESC \` with its last byte at `i`.
  predicate StringEnds(body: seq<byte>, i: nat)
    requires i < |body|
  {
    i > 0 && body[i - 1] == 0x1b && body[i] == 0x5c
  }

  // An operating system command also ends at BEL, unless an escape stands before it.
  predicate OscEnds(body: seq<byte>, i: nat)
    requires i < |body|
  {
    StringEnds(body, i) || (body[i] == 0x07 && (i == 0 || body[i - 1] != 0x1b))
  }

  predicate EndsInEscape(body: seq<byte>) {
    body != [] && body[|body| - 1] == 0x1b
  }

  lemma {:induction false} OscRuns(f: Filter, body: seq<byte>)
    requires f.state == Osc(false) && forall i | 0 <= i < |body| :: !OscEnds(body, i)
    ensures FilterBytes(f, body) == f.(state := Osc(EndsInEscape(body)))
  {
    if body != [] {
      var before := body[..|body| - 1];
      forall i | 0 <= i < |before| ensures !OscEnds(before, i) {
        assert !OscEnds(body, i);
      }
      OscRuns(f, before);
      assert !OscEnds(body, |body| - 1);
    }
  }

  lemma {:induction false} StringRuns(f: Filter, body: seq<byte>)
    requires f.state == StringControl(false) && forall i | 0 <= i < |body| :: !StringEnds(body, i)
    ensures FilterBytes(f, body) == f.(state := StringControl(EndsInEscape(body)))
  {
    if body != [] {
      var before := body[..|body| - 1];
      forall i | 0 <= i < |before| ensures !StringEnds(before, i) {
        assert !StringEnds(body, i);
      }
      StringRuns(f, before);
      assert !StringEnds(body, |body| - 1);
    }
  }

  /** An operating system command is silent up to its first end, and exactly there text is let through again. */
  lemma OscIsSilent(f: Filter, body: seq<byte>)
    requires f.state == Ground && body != [] && forall i | 0 <= i < |body| - 1 :: !OscEnds(body, i)
    ensures FilterBytes(f, [0x1b] + ([0x5d] + body))
            == if OscEnds(body, |body| - 1) then f else f.(state := Osc(EndsInEscape(body)))
  {
    var o := f.(state := Osc(false));
    First(f, 0x1b, [0x5d] + body);
    First(f.(state := Escape), 0x5d, body);
    var before := body[..|body| - 1];
    forall i | 0 <= i < |before| ensures !OscEnds(before, i) {
      assert !OscEnds(body, i);
    }
    OscRuns(o, before);
  }

  /** So are device control, start of string, privacy message and application command, which only `ESC \` ends. */
  lemma StringIsSilent(f: Filter, kind: byte, body: seq<byte>)
    requires f.state == Ground && kind in {0x50, 0x58, 0x5e, 0x5f}
    requires body != [] && forall i | 0 <= i < |body| - 1 :: !StringEnds(body, i)
    ensures FilterBytes(f, [0x1b] + ([kind] + body))
            == if StringEnds(body, |body| - 1) then f else f.(state := StringControl(EndsInEscape(body)))
  {
    var o := f.(state := StringControl(false));
    First(f, 0x1b, [kind] + body);
    First(f.(state := Escape), kind, body);
    var before := body[..|body| - 1];
    forall i | 0 <= i < |before| ensures !StringEnds(before, i) {
      assert !StringEnds(body, i);
    }
    StringRuns(o, before);
  }

  /** Bytes without an escape or 0x9b are let through as they are. */
  lemma {:induction false} PlainPasses(f: Filter, bytes: seq<byte>)
    requires f.state == Ground && 0x1b !in bytes && 0x9b !in bytes
    ensures FilterBytes(f, bytes) == f.(text := f.text + bytes)
  {
    if bytes == [] {
      assert f.text + bytes == f.text;
    } else {
      var before, last := bytes[..|bytes| - 1], bytes[|bytes| - 1];
      PlainPasses(f, before);
      assert f.text + before + [last] == f.text + bytes;
    }
  }

  // ---------- what text prints ----------

  // Neither a control character of the C0 or C1 set nor DEL, except the tab.
  predicate Printable(s: string) {
    forall i | 0 <= i < |s| :: s[i] == '\t' || 0x20 <= s[i] as int < 0x7f || s[i] as int >= 0xa0
  }

  function Extended(t: Tape, s: string): Tape
    requires t.open ==> t.lines != []
  {
    if t.open then Tape(t.lines[|t.lines| - 1 := t.lines[|t.lines| - 1] + s], true) else Tape(t.lines + [s], true)
  }

  lemma ExtendedMore(t: Tape, s: string, ch: char)
    requires Printable([ch]) && (t.open ==> t.lines != [])
    ensures PrintChar(t, ch) == Extended(t, [ch])
    ensures PrintChar(Extended(t, s), ch) == Extended(t, s + [ch])
  {
    assert [ch][0] == ch && ch != '\n' && (ch == '\t' || !IsControl(ch));
    if t.open {
      var last := |t.lines| - 1;
      Regroup(t.lines[last], s, [ch]);
      assert t.lines[last := t.lines[last] + s][last := t.lines[last] + s + [ch]]
          == t.lines[last := t.lines[last] + (s + [ch])];
    } else {
      assert (t.lines + [s])[|t.lines| := s + [ch]] == t.lines + [s + [ch]];
    }
  }

  /** Printable text extends an open line or opens a new one. */
  lemma {:induction false} PrintableIsKept(t: Tape, s: string)
    requires Printable(s) && s != "" && (t.open ==> t.lines != [])
    ensures Printed(t, s)
            == if t.open then Tape(t.lines[|t.lines| - 1 := t.lines[|t.lines| - 1] + s], true)
               else Tape(t.lines + [s], true)
  {
    hide PrintChar;
    var before, last := s[..|s| - 1], s[|s| - 1];
    assert s == before + [last];
    ExtendedMore(t, before, last);
    if before == "" {
      assert Printed(t, before) == t;
    } else {
      PrintableIsKept(t, before);
    }
  }

  /** A line feed closes an open line or adds an empty one; other control characters leave no trace. */
  lemma ControlsPrinted(t: Tape, ch: char)
    requires !Printable([ch])
    ensures Printed(t, [ch])
            == if ch != '\n' then t else if t.open then Tape(t.lines, false) else Tape(t.lines + [""], false)
  {
    assert [ch][..0] == "" && Printed(t, "") == t;
    assert Printed(t, [ch]) == PrintChar(t, ch);
  }

  lemma {:induction false} NoReturnsKept(s: string)
    requires '\r' !in s
    ensures Newlines(s) == s
  {
    if s != "" {
      NoReturnsKept(s[1..]);
      assert s == [s[0]] + s[1..] && CrLfToLf(s) == [s[0]] + CrLfToLf(s[1..]);
      CrToLfJoins([s[0]], CrLfToLf(s[1..]));
    }
  }

  /** CR LF and a CR on its own are line feeds. */
  lemma ReturnsAreLineFeeds(a: string, b: string)
    ensures Newlines(a + ("\r\n" + b)) == Newlines(a) + ("\n" + Newlines(b))
    ensures b == "" || b[0] != '\n' ==> Newlines(a + ("\r" + b)) == Newlines(a) + ("\n" + Newlines(b))
  {
    var pair, one := "\r\n" + b, "\r" + b;
    CrLfSplits(a, pair);
    CrLfSplits(a, one);
    CrLfHead(pair);
    CrLfHead(one);
    assert pair[2..] == b && one[1..] == b;
    CrToLfJoins(CrLfToLf(a), CrLfToLf(pair));
    CrToLfJoins(CrLfToLf(a), CrLfToLf(one));
    CrToLfJoins("\n", CrLfToLf(b));
    CrToLfJoins("\r", CrLfToLf(b));
    assert CrToLf("\r") == "\n" == CrToLf("\n");
  }

  // Whole lines, as a terminal receives them.
  function Sent(lines: seq<string>): string {
    if lines == [] then "" else Sent(lines[..|lines| - 1]) + (lines[|lines| - 1] + "\r\n")
  }

  lemma {:induction false} SentPrints(before: seq<string>, lines: seq<string>)
    requires forall i | 0 <= i < |lines| :: Printable(lines[i])
    ensures Printed(Tape(before, false), Newlines(Sent(lines))) == Tape(before + lines, false)
    decreases |lines|
  {
    if lines == [] {
      assert before + lines == before;
    } else {
      var most, last := lines[..|lines| - 1], lines[|lines| - 1];
      SentPrints(before, most);
      assert before + most + [last] == before + lines;
      assert Sent(lines) == Sent(most) + last + ("\r\n" + "");
      ReturnsAreLineFeeds(Sent(most) + last, "");
      LineAdded(Sent(most), last);
      PrintedSplits(Tape(before, false), Newlines(Sent(most)), last + "\n");
      LinePrints(before + most, last);
    }
  }

  lemma LinePrints(before: seq<string>, line: string)
    requires Printable(line)
    ensures Printed(Tape(before, false), line + "\n") == Tape(before + [line], false)
  {
    PrintedSplits(Tape(before, false), line, "\n");
    if line == "" {
      ControlsPrinted(Tape(before, false), '\n');
    } else {
      PrintableIsKept(Tape(before, false), line);
      ControlsPrinted(Tape(before + [line], true), '\n');
    }
  }

  lemma LineAdded(s: string, line: string)
    requires Printable(line) && (s != "" ==> s[|s| - 1] != '\r')
    ensures Newlines(s + line) + ("\n" + Newlines("")) == Newlines(s) + (line + "\n")
  {
    assert '\r' !in line;
    NoReturnsKept(line);
    CrLfSplits(s, line);
    CrToLfJoins(CrLfToLf(s), CrLfToLf(line));
  }

  // ---------- what a pane shows after an output ----------

  lemma {:induction false} AsciiIsLossless(s: string)
    requires IsAscii(s)
    ensures Lossy(Ascii(s)) == s
  {
    if s != "" {
      assert Ascii(s)[1..] == Ascii(s[1..]);
      AsciiIsLossless(s[1..]);
      assert s == [s[0]] + s[1..];
    }
  }

  /** A sequence that only changes modes leaves every line and the cursor's column as they are. */
  lemma ModesReachThePane(p: Pane, bytes: seq<byte>, modes: Modes)
    requires CursorOnText(p)
    requires FilterBytes(Filter(Ground, p.modes, []), bytes) == Filter(Ground, modes, [])
    ensures var (state, q) := PaneOutput(Ground, p, bytes);
            && state == Ground && q.modes == modes
            && q.scrollback.lines == p.scrollback.lines && (q.cursor.col > 0 <==> p.cursor.col > 0)
  {
    OutputPrints(Ground, p, bytes);
    var q := PaneOutput(Ground, p, bytes).1;
    assert TapeOf(q) == TapeOf(p);
  }

  /** In particular a shell's `ESC [ ? 2004 h` switches bracketed paste on, and nothing else. */
  lemma PromptSwitchesPasteOn(p: Pane, on: bool)
    requires CursorOnText(p)
    ensures var q := PaneOutput(Ground, p, Private(Ascii("2004"), on)).1;
            q.modes == p.modes.(bracketedPaste := on) && q.scrollback.lines == p.scrollback.lines
  {
    hide PaneOutput, FilterBytes, Private, Ascii;
    var f := Filter(Ground, p.modes, []);
    SwitchesSet(f, on);
    ModesReachThePane(p, Private(Ascii("2004"), on), p.modes.(bracketedPaste := on));
  }

  lemma {:induction false} SentIsAscii(lines: seq<string>)
    requires forall i | 0 <= i < |lines| :: IsAscii(lines[i]) && Printable(lines[i])
    ensures IsAscii(Sent(lines)) && 0x1b as char !in Sent(lines)
  {
    if lines != [] {
      SentIsAscii(lines[..|lines| - 1]);
    }
  }

  lemma OutputKeepsPlace(state: AnsiState, p: Pane, bytes: seq<byte>)
    ensures KeepsPlace(p, PaneOutput(state, p, bytes).1)
  {
    UpdateIsShown(p, EngineOutput(state, p, bytes).1, false);
  }

  /** Printable lines sent to a pane whose last line is complete are appended as they are, and the screen shows the
      last `rows` lines with the cursor at the start of the last one. */
  lemma LinesAppear(p: Pane, lines: seq<string>)
    requires CursorOnText(p) && p.cursor.col == 0
    requires forall i | 0 <= i < |lines| :: IsAscii(lines[i]) && Printable(lines[i])
    ensures IsAscii(Sent(lines))
    ensures var q := PaneOutput(Ground, p, Ascii(Sent(lines))).1;
            var all := p.scrollback.lines + lines;
            && q.scrollback.lines == all && q.modes == p.modes && q.cursor.col == 0
            && q.screen.lines == if |all| <= p.rows then all else all[|all| - p.rows..]
  {
    hide PaneOutput, FilterBytes, Printed, Newlines, Lossy, Sent;
    SentIsAscii(lines);
    var text := Sent(lines);
    var f := Filter(Ground, p.modes, []);
    assert [] + Ascii(text) == Ascii(text);
    PlainPasses(f, Ascii(text));
    AsciiIsLossless(text);
    SentPrints(p.scrollback.lines, lines);
    OutputPrints(Ground, p, Ascii(text));
    OutputShows(Ground, p, Ascii(text));
    OutputKeepsPlace(Ground, p, Ascii(text));
  }

  /** Output changes neither title nor directory, surface or colours, and the style table is the default one. */
  lemma OutputKeepsRest(state: AnsiState, p: Pane, bytes: seq<byte>)
    ensures var q := PaneOutput(state, p, bytes).1;
            && q.title == p.title && q.cwd == p.cwd && q.surface == p.surface && q.colors == p.colors
            && q.styles == [Style(0, 0, 0, 0)]
            && KeepsPlace(p, q)
  {
    hide Updated;
    UpdateIsShown(p, EngineOutput(state, p, bytes).1, false);
  }

  lemma CursorOfUpdate(p: Pane, modes: Modes, lines: seq<string>, col: u32)
    ensures var q := Updated(p, InterimUpdate(p, modes, p.rows, lines, col), false);
            q.cursor == p.cursor.(row := Max(Min(p.rows, |lines|) - 1, 0), col := col) && q.rows == p.rows
  {
    hide Updated, Tail;
    UpdateIsShown(p, InterimUpdate(p, modes, p.rows, lines, col), false);
    TailIsSuffix(lines, p.rows);
  }

  /** The cursor stands behind the open last line, on the last row of the screen. */
  lemma CursorFollowsText(state: AnsiState, p: Pane, bytes: seq<byte>)
    requires CursorOnText(p)
    ensures var q := PaneOutput(state, p, bytes).1;
            var t := Printed(TapeOf(p), Newlines(Lossy(Visible(state, p.modes, bytes))));
            var last := if t.open && t.lines != [] then |t.lines[|t.lines| - 1]| else 0;
            q.cursor == p.cursor.(row := Max(Min(p.rows, |t.lines|) - 1, 0), col := Min(last, U32_MAX))
  {
    hide Updated, Printed, Newlines, Lossy, FilterBytes, InterimUpdate;
    var f := FilterBytes(Filter(state, p.modes, []), bytes);
    var t := Printed(TapeOf(p), Newlines(Lossy(f.text)));
    PrintedGood(TapeOf(p), Newlines(Lossy(f.text)));
    CursorOfUpdate(p, f.modes, t.lines, if t.open then LastWidth(t.lines) else 0);
  }
}
