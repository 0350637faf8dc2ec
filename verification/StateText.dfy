/** The text layer of the client state file: lines and fields, hexadecimal, palettes and enumeration codes. */
module StateText {
  import opened Types
  import opened Text

  // ---------- lines and fields ----------

  // The position of the first `c`, or the length.
  function FirstIndex(s: string, c: char): (n: nat)
    ensures n <= |s| && (n < |s| ==> s[n] == c)
    ensures forall i | 0 <= i < n :: s[i] != c
  {
    if s == "" || s[0] == c then 0 else 1 + FirstIndex(s[1..], c)
  }

  function StripCr(s: string): string {
    if s != "" && s[|s| - 1] == '\r' then s[..|s| - 1] else s
  }

  /** Rust's `str::lines`. */
  function Lines(s: string): seq<string> {
    var n := FirstIndex(s, '\n');
    if s == "" then []
    else if n == |s| then [s]
    else [StripCr(s[..n])] + Lines(s[n + 1..])
  }

  /** Rust's `split(' ')`. */
  function Split(s: string): (fs: seq<string>)
    ensures fs != []
  {
    var n := FirstIndex(s, ' ');
    if n == |s| then [s] else [s[..n]] + Split(s[n + 1..])
  }

  function Join(fs: seq<string>): string {
    if fs == [] then "" else if |fs| == 1 then fs[0] else fs[0] + " " + Join(fs[1..])
  }

  function Line(fs: seq<string>): string {
    Join(fs) + "\n"
  }

  function Unlines(ls: seq<seq<string>>): string {
    if ls == [] then "" else Unlines(ls[..|ls| - 1]) + Line(ls[|ls| - 1])
  }

  predicate Clean(s: string) {
    ' ' !in s && '\n' !in s && '\r' !in s
  }

  predicate CleanLine(fs: seq<string>) {
    fs != [] && forall f | f in fs :: Clean(f)
  }

  ghost predicate CleanLines(ls: seq<seq<string>>) {
    forall l | l in ls :: CleanLine(l)
  }

  lemma FirstIndexAt(s: string, c: char, n: nat)
    requires n < |s| && s[n] == c && forall i | 0 <= i < n :: s[i] != c
    ensures FirstIndex(s, c) == n
  {
  }

  lemma SplitLast(s: string)
    requires ' ' !in s
    ensures Split(s) == [s]
  {
    assert FirstIndex(s, ' ') == |s|;
  }

  lemma SplitFirst(a: string, rest: string)
    requires ' ' !in a
    ensures Split(a + " " + rest) == [a] + Split(rest)
  {
    var s := a + " " + rest;
    FirstIndexAt(s, ' ', |a|);
    assert s[..|a|] == a && s[|a| + 1..] == rest;
  }

  /** Splitting inverts joining. */
  lemma {:induction false} SplitJoined(fs: seq<string>)
    requires CleanLine(fs)
    ensures Split(Join(fs)) == fs
  {
    hide Split;
    assert fs[0] in fs && forall f | f in fs[1..] :: f in fs;
    if |fs| == 1 {
      SplitLast(fs[0]);
    } else {
      SplitFirst(fs[0], Join(fs[1..]));
      SplitJoined(fs[1..]);
    }
  }

  lemma {:induction false} JoinedOneLine(fs: seq<string>)
    requires CleanLine(fs)
    ensures '\n' !in Join(fs) && '\r' !in Join(fs)
  {
    assert fs[0] in fs && forall f | f in fs[1..] :: f in fs;
    if |fs| > 1 {
      JoinedOneLine(fs[1..]);
    }
  }

  lemma LineFirst(fs: seq<string>, rest: string)
    requires CleanLine(fs)
    ensures Lines(Line(fs) + rest) == [Join(fs)] + Lines(rest)
  {
    JoinedOneLine(fs);
    var s := Line(fs) + rest;
    FirstIndexAt(s, '\n', |Join(fs)|);
    assert s[..|Join(fs)|] == Join(fs) && s[|Join(fs)| + 1..] == rest;
  }

  function SplitAll(lines: seq<string>): seq<seq<string>> {
    seq(|lines|, i requires 0 <= i < |lines| => Split(lines[i]))
  }

  lemma {:induction false} LinesBefore(ls: seq<seq<string>>, rest: string)
    requires CleanLines(ls)
    ensures SplitAll(Lines(Unlines(ls) + rest)) == ls + SplitAll(Lines(rest))
    decreases |ls|
  {
    if ls == [] {
      assert "" + rest == rest;
    } else {
      var before, last := ls[..|ls| - 1], ls[|ls| - 1];
      assert Unlines(ls) + rest == Unlines(before) + (Line(last) + rest);
      LinesBefore(before, Line(last) + rest);
      FieldsFirst(last, rest);
      Regroup(before, [last], SplitAll(Lines(rest)));
      assert ls == before + [last];
    }
  }

  lemma FieldsFirst(fs: seq<string>, rest: string)
    requires CleanLine(fs)
    ensures SplitAll(Lines(Line(fs) + rest)) == [fs] + SplitAll(Lines(rest))
  {
    LineFirst(fs, rest);
    SplitJoined(fs);
  }

  /** Reading lines and fields inverts writing them. */
  lemma LinesOfUnlines(ls: seq<seq<string>>)
    requires CleanLines(ls)
    ensures SplitAll(Lines(Unlines(ls))) == ls
  {
    LinesBefore(ls, "");
    assert Unlines(ls) + "" == Unlines(ls);
  }

  lemma UnlinesLast(ls: seq<seq<string>>, l: seq<string>)
    ensures Unlines(ls + [l]) == Unlines(ls) + Line(l)
  {
    assert (ls + [l])[..|ls|] == ls;
  }

  lemma {:induction false} UnlinesJoin(a: seq<seq<string>>, b: seq<seq<string>>)
    ensures Unlines(a + b) == Unlines(a) + Unlines(b)
    decreases |b|
  {
    if b == [] {
      assert a + b == a;
    } else {
      var before, last := b[..|b| - 1], b[|b| - 1];
      UnlinesJoin(a, before);
      UnlinesLast(a + before, last);
      UnlinesLast(before, last);
      assert a + b == a + before + [last] && b == before + [last];
      Regroup(Unlines(a), Unlines(before), Line(last));
    }
  }

  // ---------- hexadecimal ----------

  const HEX: string := "0123456789abcdef"

  function HexValue(c: char): (v: Option<nat>)
    ensures v.Some? ==> v.value < 16
  {
    if '0' <= c <= '9' then Some(c as int - '0' as int)
    else if 'a' <= c <= 'f' then Some(c as int - 'a' as int + 10)
    else if 'A' <= c <= 'F' then Some(c as int - 'A' as int + 10)
    else None
  }

  function HexPair(b: byte): string {
    [HEX[b / 16], HEX[b % 16]]
  }

  function HexOf(bytes: seq<byte>): string {
    if bytes == [] then "" else HexOf(bytes[..|bytes| - 1]) + HexPair(bytes[|bytes| - 1])
  }

  // Decoded from the left, pair by pair; `None` for odd lengths and other characters.
  function FromHex(s: string): Option<seq<byte>> {
    if s == "" then Some([])
    else if |s| == 1 then None
    else
      var before := FromHex(s[..|s| - 2]);
      var high, low := HexValue(s[|s| - 2]), HexValue(s[|s| - 1]);
      if before.None? || high.None? || low.None? || high.value * 16 + low.value > 255 then None
      else Some(before.value + [high.value * 16 + low.value])
  }

  method HexEncode(bytes: seq<byte>) returns (encoded: string)
    ensures encoded == HexOf(bytes)
  {
    encoded := "";
    for i := 0 to |bytes|
      invariant encoded == HexOf(bytes[..i])
    {
      assert bytes[..i + 1][..i] == bytes[..i];
      encoded := encoded + [HEX[bytes[i] / 16]];
      encoded := encoded + [HEX[bytes[i] % 16]];
    }
    assert bytes[..|bytes|] == bytes;
  }

  // Reading the next pair of the text.
  lemma NextPair(s: string, i: nat, bytes: seq<byte>)
    requires i + 2 <= |s| && FromHex(s[..i]) == Some(bytes)
    ensures var high, low := HexValue(s[i]), HexValue(s[i + 1]);
            FromHex(s[..i + 2])
            == if high.None? || low.None? then None else Some(bytes + [high.value * 16 + low.value])
  {
    hide HexValue;
    var t := s[..i + 2];
    assert t[..|t| - 2] == s[..i] && t[|t| - 2] == s[i] && t[|t| - 1] == s[i + 1];
  }

  method HexDecode(encoded: string) returns (decoded: Option<seq<byte>>)
    ensures decoded == FromHex(encoded)
  {
    hide FromHex, HexValue;
    if |encoded| % 2 != 0 {
      OddIsNoHex(encoded);
      return None;
    }
    var bytes: seq<byte> := [];
    var i := 0;
    NothingDecoded(encoded);
    while i < |encoded|
      invariant 0 <= i <= |encoded| && i % 2 == 0
      invariant FromHex(encoded[..i]) == Some(bytes)
    {
      NextPair(encoded, i, bytes);
      var high, low := HexValue(encoded[i]), HexValue(encoded[i + 1]);
      if high.None? || low.None? {
        BadPrefix(encoded, i + 2);
        return None;
      }
      bytes := bytes + [high.value * 16 + low.value];
      i := i + 2;
    }
    assert encoded[..i] == encoded;
    decoded := Some(bytes);
  }

  lemma NothingDecoded(s: string)
    ensures FromHex(s[..0]) == Some([])
  {
  }

  lemma {:induction false} OddIsNoHex(s: string)
    requires |s| % 2 == 1
    ensures FromHex(s).None?
  {
    if |s| > 1 {
      OddIsNoHex(s[..|s| - 2]);
    }
  }

  lemma {:induction false} BadPrefix(s: string, n: nat)
    requires n <= |s| && n % 2 == 0 && FromHex(s[..n]).None?
    ensures FromHex(s).None?
    decreases |s|
  {
    if n == |s| {
      assert s[..n] == s;
    } else if |s| % 2 == 1 {
      OddIsNoHex(s);
    } else {
      assert s[..|s| - 2][..n] == s[..n];
      BadPrefix(s[..|s| - 2], n);
    }
  }

  lemma {:induction false} HexRoundTrip(bytes: seq<byte>)
    ensures FromHex(HexOf(bytes)) == Some(bytes) && Clean(HexOf(bytes)) && "-" != HexOf(bytes)
    ensures HexOf(bytes) == "" ==> bytes == []
  {
    hide FromHex, HexOf, Clean, HexValue, HexPair;
    if bytes == [] {
      NoBytes();
    } else {
      var before, b := bytes[..|bytes| - 1], bytes[|bytes| - 1];
      HexRoundTrip(before);
      HexPairRoundTrip(b);
      HexMore(HexOf(before), before, HexPair(b), b);
      LastPair(bytes);
      assert bytes == before + [b];
    }
  }

  lemma NoBytes()
    ensures HexOf([]) == "" && FromHex("") == Some([]) && Clean("")
  {
  }

  lemma LastPair(bytes: seq<byte>)
    requires bytes != []
    ensures HexOf(bytes) == HexOf(bytes[..|bytes| - 1]) + HexPair(bytes[|bytes| - 1])
  {
  }

  // One more pair at the end of decodable text.
  lemma HexMore(s: string, before: seq<byte>, pair: string, b: byte)
    requires FromHex(s) == Some(before) && Clean(s) && Clean(pair) && |pair| == 2
    requires HexValue(pair[0]) == Some(b / 16) && HexValue(pair[1]) == Some(b % 16) && b / 16 * 16 + b % 16 == b
    ensures FromHex(s + pair) == Some(before + [b]) && Clean(s + pair) && |s + pair| >= 2
  {
    hide HexValue;
    var all := s + pair;
    assert all[..|all| - 2] == s && all[|all| - 2] == pair[0] && all[|all| - 1] == pair[1];
  }

  lemma HexPairRoundTrip(b: byte)
    ensures |HexPair(b)| == 2 && Clean(HexPair(b))
    ensures HexValue(HexPair(b)[0]) == Some(b / 16) && HexValue(HexPair(b)[1]) == Some(b % 16)
    ensures b / 16 * 16 + b % 16 == b
  {
    HexDigit(b / 16);
    HexDigit(b % 16);
  }

  lemma HexDigit(d: nat)
    requires d < 16
    ensures HexValue(HEX[d]) == Some(d) && Clean([HEX[d]])
  {
    assert HEX[0] == '0' && HEX[1] == '1' && HEX[2] == '2' && HEX[3] == '3' && HEX[4] == '4' && HEX[5] == '5';
    assert HEX[6] == '6' && HEX[7] == '7' && HEX[8] == '8' && HEX[9] == '9' && HEX[10] == 'a' && HEX[11] == 'b';
    assert HEX[12] == 'c' && HEX[13] == 'd' && HEX[14] == 'e' && HEX[15] == 'f';
  }

  // ---------- strings, optional fields, palettes ----------

  function HexText(s: string): string {
    HexOf(ToUtf8(s))
  }

  function FromHexText(s: string): Option<string> {
    var bytes := FromHex(s);
    if bytes.None? then None else FromUtf8(bytes.value)
  }

  // `state_hex_field`: the empty string is written as a dash.
  function HexField(s: string): string {
    if ToUtf8(s) == [] then "-" else HexText(s)
  }

  function FromHexField(s: string): Option<string> {
    if s == "-" then FromUtf8([]) else FromHexText(s)
  }

  lemma HexTextRoundTrip(s: string)
    ensures FromHexText(HexText(s)) == Some(s) && Clean(HexText(s))
    ensures FromHexField(HexField(s)) == Some(s) && Clean(HexField(s))
  {
    HexRoundTrip(ToUtf8(s));
    Utf8RoundTrip(s);
  }

  function BigEndian(c: u32): seq<byte> {
    [c / 0x1000000, c / 0x10000 % 0x100, c / 0x100 % 0x100, c % 0x100]
  }

  function PaletteBytes(colors: seq<u32>): seq<byte> {
    if colors == [] then [] else BigEndian(colors[0]) + PaletteBytes(colors[1..])
  }

  function FromBigEndian(b: seq<byte>): u32
    requires |b| == 4
  {
    ((b[0] as int * 0x100 + b[1]) * 0x100 + b[2]) * 0x100 + b[3]
  }

  function PaletteOf(bytes: seq<byte>): Option<seq<u32>> {
    if bytes == [] then Some([])
    else if |bytes| < 4 then None
    else
      var rest := PaletteOf(bytes[4..]);
      if rest.None? then None else Some([FromBigEndian(bytes[..4])] + rest.value)
  }

  function DecodePalette(s: string): Option<seq<u32>> {
    var bytes := FromHex(s);
    if bytes.None? then None else PaletteOf(bytes.value)
  }

  lemma BigEndianRoundTrip(c: u32)
    ensures FromBigEndian(BigEndian(c)) == c
  {
    assert c == c / 0x100 * 0x100 + c % 0x100;
    assert c / 0x100 == c / 0x10000 * 0x100 + c / 0x100 % 0x100;
    assert c / 0x10000 == c / 0x1000000 * 0x100 + c / 0x10000 % 0x100;
  }

  lemma {:induction false} PaletteRoundTrip(colors: seq<u32>)
    ensures PaletteOf(PaletteBytes(colors)) == Some(colors)
  {
    if colors != [] {
      PaletteRoundTrip(colors[1..]);
      BigEndianRoundTrip(colors[0]);
      var bytes := PaletteBytes(colors);
      assert bytes[..4] == BigEndian(colors[0]) && bytes[4..] == PaletteBytes(colors[1..]);
      assert colors == [colors[0]] + colors[1..];
    }
  }

  lemma PaletteTextRoundTrip(colors: seq<u32>)
    ensures DecodePalette(HexOf(PaletteBytes(colors))) == Some(colors) && Clean(HexOf(PaletteBytes(colors)))
  {
    PaletteRoundTrip(colors);
    HexRoundTrip(PaletteBytes(colors));
  }

  // ---------- numbers and enumerations ----------

  const I64_MAX: nat := 0x7fff_ffff_ffff_ffff

  type i64 = x: int | -(I64_MAX as int) - 1 <= x <= I64_MAX

  function ParseU64(s: string): Option<u64> {
    var n := ParseUnsigned(s, U64_MAX);
    if n.Some? then Some(n.value) else None
  }

  function ParseU32(s: string): Option<u32> {
    var n := ParseUnsigned(s, U32_MAX);
    if n.Some? then Some(n.value) else None
  }

  function ParseI64(s: string): Option<i64> {
    var n := ParseSigned(s, I64_MAX);
    if n.Some? then Some(n.value) else None
  }

  // Enumeration codes are parsed as `i8`.
  function ParseCode(s: string): Option<int> {
    ParseSigned(s, 127)
  }

  function Flag(b: bool): string {
    if b then "1" else "0"
  }

  function ParseBool(s: string): Option<bool> {
    if s == "0" then Some(false) else if s == "1" then Some(true) else None
  }

  lemma NumbersRoundTrip(n: nat)
    ensures n <= U64_MAX ==> ParseU64(PrintNat(n)) == Some(n)
    ensures n <= U32_MAX ==> ParseU32(PrintNat(n)) == Some(n)
    ensures n <= 127 ==> ParseCode(PrintNat(n)) == Some(n)
    ensures Clean(PrintNat(n))
  {
    UnsignedRoundTrip(n, U64_MAX);
    UnsignedRoundTrip(n, U32_MAX);
    if n <= 127 {
      SignedRoundTrip(n, 127);
    }
    var s := PrintNat(n);
    assert forall i | 0 <= i < |s| :: IsDigit(s[i]);
  }

  lemma I64RoundTrip(n: i64)
    ensures ParseI64(PrintInt(n)) == Some(n) && Clean(PrintInt(n))
  {
    SignedRoundTrip(n, I64_MAX);
    NumbersRoundTrip(if n < 0 then -(n as int) else n);
  }

  lemma FlagRoundTrip(b: bool)
    ensures ParseBool(Flag(b)) == Some(b) && Clean(Flag(b))
  {
  }

  function SurfaceCode(k: SurfaceKind): nat {
    match k case Main => 0 case Alternate => 1
  }

  function ParseSurface(s: string): Option<SurfaceKind> {
    match ParseCode(s)
    case Some(0) => Some(Main)
    case Some(1) => Some(Alternate)
    case _ => None
  }

  function ShapeCode(k: CursorShape): nat {
    match k case Block => 0 case Beam => 1 case Underline => 2
  }

  function ParseShape(s: string): Option<CursorShape> {
    match ParseCode(s)
    case Some(0) => Some(Block)
    case Some(1) => Some(Beam)
    case Some(2) => Some(Underline)
    case _ => None
  }

  function PromptCode(k: RowPrompt): nat {
    match k case NoPrompt => 0 case Prompt => 1 case Continuation => 2
  }

  function ParsePrompt(s: string): Option<RowPrompt> {
    match ParseCode(s)
    case Some(0) => Some(NoPrompt)
    case Some(1) => Some(Prompt)
    case Some(2) => Some(Continuation)
    case _ => None
  }

  function ContentCode(k: CellContent): nat {
    match k case OutputCell => 0 case InputCell => 1 case PromptCell => 2
  }

  function ParseContent(s: string): Option<CellContent> {
    match ParseCode(s)
    case Some(0) => Some(OutputCell)
    case Some(1) => Some(InputCell)
    case Some(2) => Some(PromptCell)
    case _ => None
  }

  function TrackingCode(k: MouseTracking): nat {
    match k
    case NoTracking => 0 case X10Tracking => 1 case NormalTracking => 2 case ButtonTracking => 3 case AnyTracking => 4
  }

  function ParseTracking(s: string): Option<MouseTracking> {
    match ParseCode(s)
    case Some(0) => Some(NoTracking)
    case Some(1) => Some(X10Tracking)
    case Some(2) => Some(NormalTracking)
    case Some(3) => Some(ButtonTracking)
    case Some(4) => Some(AnyTracking)
    case _ => None
  }

  function FormatCode(k: MouseFormat): nat {
    match k
    case X10Format => 0 case Utf8Format => 1 case SgrFormat => 2 case UrxvtFormat => 3 case SgrPixelsFormat => 4
  }

  function ParseFormat(s: string): Option<MouseFormat> {
    match ParseCode(s)
    case Some(0) => Some(X10Format)
    case Some(1) => Some(Utf8Format)
    case Some(2) => Some(SgrFormat)
    case Some(3) => Some(UrxvtFormat)
    case Some(4) => Some(SgrPixelsFormat)
    case _ => None
  }

  lemma EnumsRoundTrip(a: SurfaceKind, b: CursorShape, c: RowPrompt, d: CellContent, e: MouseTracking, f: MouseFormat)
    ensures ParseSurface(PrintNat(SurfaceCode(a))) == Some(a)
    ensures ParseShape(PrintNat(ShapeCode(b))) == Some(b)
    ensures ParsePrompt(PrintNat(PromptCode(c))) == Some(c)
    ensures ParseContent(PrintNat(ContentCode(d))) == Some(d)
    ensures ParseTracking(PrintNat(TrackingCode(e))) == Some(e)
    ensures ParseFormat(PrintNat(FormatCode(f))) == Some(f)
  {
    NumbersRoundTrip(SurfaceCode(a));
    NumbersRoundTrip(ShapeCode(b));
    NumbersRoundTrip(PromptCode(c));
    NumbersRoundTrip(ContentCode(d));
    NumbersRoundTrip(TrackingCode(e));
    NumbersRoundTrip(FormatCode(f));
  }

  lemma DigitsAreNumbers()
    ensures ParseCode("0") == Some(0) && ParseCode("1") == Some(1) && ParseCode("2") == Some(2)
    ensures ParseCode("3") == Some(3) && ParseCode("4") == Some(4)
  {
    hide ParseCode;
    NumbersRoundTrip(0);
    NumbersRoundTrip(1);
    NumbersRoundTrip(2);
    NumbersRoundTrip(3);
    NumbersRoundTrip(4);
    assert PrintNat(0) == "0" && PrintNat(1) == "1" && PrintNat(2) == "2" && PrintNat(3) == "3" && PrintNat(4) == "4";
  }

  /** The codes are the protocol's numbers. */
  lemma CodesOnDisk()
    ensures ParseSurface("0") == Some(Main) && ParseSurface("1") == Some(Alternate)
    ensures ParseShape("0") == Some(Block) && ParseShape("1") == Some(Beam) && ParseShape("2") == Some(Underline)
    ensures ParsePrompt("0") == Some(NoPrompt) && ParsePrompt("1") == Some(Prompt)
    ensures ParsePrompt("2") == Some(Continuation)
    ensures ParseContent("0") == Some(OutputCell) && ParseContent("1") == Some(InputCell)
    ensures ParseContent("2") == Some(PromptCell)
    ensures ParseTracking("0") == Some(NoTracking) && ParseTracking("1") == Some(X10Tracking)
    ensures ParseTracking("2") == Some(NormalTracking) && ParseTracking("3") == Some(ButtonTracking)
    ensures ParseTracking("4") == Some(AnyTracking)
    ensures ParseFormat("0") == Some(X10Format) && ParseFormat("1") == Some(Utf8Format)
    ensures ParseFormat("2") == Some(SgrFormat) && ParseFormat("3") == Some(UrxvtFormat)
    ensures ParseFormat("4") == Some(SgrPixelsFormat)
  {
    hide ParseCode;
    DigitsAreNumbers();
  }
}
