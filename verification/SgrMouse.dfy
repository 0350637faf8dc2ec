/** Mouse reports in SGR form: an application that reads the report gets back exactly the event. */
module SgrMouse {
  import opened Types
  import opened Text
  import opened StateText

  datatype Button = NoButton | Left | Middle | Right | WheelUp | WheelDown
  datatype MouseAction = Press | Release | Motion

  datatype MouseInput = MouseInput(
    row: u32, col: u32, rows: u32, cols: u32, pixelX: Option<u32>, pixelY: Option<u32>, button: Button,
    action: MouseAction, modifiers: u32, format: MouseFormat)

  function ButtonCode(b: Button): nat {
    match b
    case Left => 0 case Middle => 1 case Right => 2 case NoButton => 3 case WheelUp => 64 case WheelDown => 65
  }

  // Shift, control and alt are bits 0, 1 and 2 of the modifiers.
  function Code(i: MouseInput): nat {
    ButtonCode(i.button)
    + (if i.action == Motion then 32 else 0)
    + (if i.modifiers % 2 == 1 then 4 else 0)
    + (if i.modifiers / 4 % 2 == 1 then 8 else 0)
    + (if i.modifiers / 2 % 2 == 1 then 16 else 0)
  }

  function CheckedAdd(n: u32): Option<u32> {
    if n < U32_MAX then Some(n + 1) else None
  }

  // The reported position: pixels, or one-based cells.
  function Position(i: MouseInput): (Option<u32>, Option<u32>) {
    if i.format == SgrPixelsFormat then (i.pixelX, i.pixelY) else (CheckedAdd(i.col), CheckedAdd(i.row))
  }

  /** `encode_sgr_mouse_input`, as ASCII text. */
  function Encode(i: MouseInput): Option<string> {
    if (i.format != SgrFormat && i.format != SgrPixelsFormat) || i.row >= i.rows || i.col >= i.cols then None
    else
      var (x, y) := Position(i);
      if x.None? || y.None? then None
      else Some(Printed(Code(i), x.value, y.value, i.action == Release))
  }

  const INTRODUCER: string := "\U{1b}[<"

  function Printed(code: nat, x: u32, y: u32, released: bool): string {
    INTRODUCER + (PrintNat(code) + ";" + (PrintNat(x) + ";" + PrintNat(y))) + (if released then "m" else "M")
  }

  // ---------- reading a report ----------

  datatype Report = Report(
    button: Button, action: MouseAction, shift: bool, control: bool, alt: bool, x: u32, y: u32)

  function ButtonOf(code: nat): Option<Button> {
    if code >= 66 then None
    else if code == 64 then Some(WheelUp) else if code == 65 then Some(WheelDown)
    else if code == 0 then Some(Left) else if code == 1 then Some(Middle) else if code == 2 then Some(Right)
    else if code == 3 then Some(NoButton) else None
  }

  // The code without its motion and modifier bits (2 to 5).
  function BareCode(code: nat): nat {
    code / 64 * 64 + code % 4
  }

  // The three fields between introducer and final character.
  function ReadFields(body: string, released: bool): Option<Report> {
    var n := FirstIndex(body, ';');
    if n == |body| then None
    else
      var rest := body[n + 1..];
      var m := FirstIndex(rest, ';');
      if m == |rest| then None
      else
        var code, x, y := ParseU32(body[..n]), ParseU32(rest[..m]), ParseU32(rest[m + 1..]);
        if code.None? || x.None? || y.None? then None else ReportOf(code.value, x.value, y.value, released)
  }

  function ReadReport(s: string): Option<Report> {
    if |s| < 4 || s[..3] != INTRODUCER || (s[|s| - 1] != 'M' && s[|s| - 1] != 'm') then None
    else ReadFields(s[3..|s| - 1], s[|s| - 1] == 'm')
  }

  function ReportOf(code: nat, x: u32, y: u32, released: bool): Option<Report> {
    var button := ButtonOf(BareCode(code));
    if button.None? then None
    else
      var action := if released then Release else if code / 32 % 2 == 1 then Motion else Press;
      Some(Report(button.value, action, code / 4 % 2 == 1, code / 16 % 2 == 1, code / 8 % 2 == 1, x, y))
  }

  // The six parts of a code, each recovered by division.
  lemma CodeParts(wheel: nat, motion: nat, control: nat, alt: nat, shift: nat, low: nat)
    requires wheel < 2 && motion < 2 && control < 2 && alt < 2 && shift < 2 && low < 4
    ensures var code := 64 * wheel + 32 * motion + 16 * control + 8 * alt + 4 * shift + low;
            && code / 64 == wheel && code % 4 == low && code / 4 % 2 == shift && code / 8 % 2 == alt
            && code / 16 % 2 == control && code / 32 % 2 == motion
  {
    var code := 64 * wheel + 32 * motion + 16 * control + 8 * alt + 4 * shift + low;
    assert code / 4 == 16 * wheel + 8 * motion + 4 * control + 2 * alt + shift;
    assert code / 8 == 8 * wheel + 4 * motion + 2 * control + alt;
    assert code / 16 == 4 * wheel + 2 * motion + control;
    assert code / 32 == 2 * wheel + motion;
  }

  function Bit(b: bool): nat {
    if b then 1 else 0
  }

  function Wheel(b: Button): nat {
    Bit(b == WheelUp || b == WheelDown)
  }

  lemma ButtonReads(b: Button)
    ensures 0 <= ButtonCode(b) - 64 * Wheel(b) < 4 && ButtonOf(ButtonCode(b)) == Some(b)
  {
  }

  lemma CodeReads(i: MouseInput, x: u32, y: u32)
    ensures Code(i) <= 127
    ensures ReportOf(Code(i), x, y, i.action == Release)
            == Some(Report(i.button, i.action, i.modifiers % 2 == 1, i.modifiers / 2 % 2 == 1,
                           i.modifiers / 4 % 2 == 1, x, y))
  {
    hide ButtonCode, ButtonOf, Wheel;
    var shift, control, alt := i.modifiers % 2 == 1, i.modifiers / 2 % 2 == 1, i.modifiers / 4 % 2 == 1;
    ButtonReads(i.button);
    WheelIsBit(i.button);
    CodeParts(Wheel(i.button), Bit(i.action == Motion), Bit(control), Bit(alt), Bit(shift),
              ButtonCode(i.button) - 64 * Wheel(i.button));
    assert Code(i) == ButtonCode(i.button) + 32 * Bit(i.action == Motion) + 16 * Bit(control) + 8 * Bit(alt)
                      + 4 * Bit(shift);
    assert BareCode(Code(i)) == ButtonCode(i.button);
  }

  lemma WheelIsBit(b: Button)
    ensures Wheel(b) < 2
  {
  }

  lemma NoSeparator(n: nat)
    ensures forall i | 0 <= i < |PrintNat(n)| :: PrintNat(n)[i] != ';'
  {
    assert forall i | 0 <= i < |PrintNat(n)| :: IsDigit(PrintNat(n)[i]);
  }

  lemma BodyReads(a: string, b: string, c: string)
    requires (forall i | 0 <= i < |a| :: a[i] != ';') && (forall i | 0 <= i < |b| :: b[i] != ';')
    ensures var body := a + ";" + (b + ";" + c); var rest := b + ";" + c;
            && FirstIndex(body, ';') == |a| && body[..|a|] == a && body[|a| + 1..] == rest
            && FirstIndex(rest, ';') == |b| && rest[..|b|] == b && rest[|b| + 1..] == c
  {
    FirstIndexAt(a + ";" + (b + ";" + c), ';', |a|);
    FirstIndexAt(b + ";" + c, ';', |b|);
  }

  lemma Unwrap(body: string, released: bool)
    ensures ReadReport(INTRODUCER + body + (if released then "m" else "M")) == ReadFields(body, released)
  {
    hide ReadFields;
    var s := INTRODUCER + body + (if released then "m" else "M");
    assert |INTRODUCER| == 3;
    assert s[..3] == INTRODUCER && s[3..|s| - 1] == body && s[|s| - 1] == if released then 'm' else 'M';
  }

  lemma FieldsRead(a: string, b: string, c: string, code: u32, x: u32, y: u32, released: bool)
    requires (forall i | 0 <= i < |a| :: a[i] != ';') && (forall i | 0 <= i < |b| :: b[i] != ';')
    requires ParseU32(a) == Some(code) && ParseU32(b) == Some(x) && ParseU32(c) == Some(y)
    ensures ReadFields(a + ";" + (b + ";" + c), released) == ReportOf(code, x, y, released)
  {
    hide ParseU32, ReportOf, FirstIndex;
    BodyReads(a, b, c);
  }

  lemma PrintedReads(code: nat, x: u32, y: u32, released: bool)
    requires code <= 127
    ensures ReadReport(Printed(code, x, y, released)) == ReportOf(code, x, y, released)
  {
    hide PrintNat, ParseU32, ReportOf, ReadReport, ReadFields;
    NumbersRoundTrip(code);
    NumbersRoundTrip(x);
    NumbersRoundTrip(y);
    NoSeparator(code);
    NoSeparator(x);
    FieldsRead(PrintNat(code), PrintNat(x), PrintNat(y), code, x, y, released);
    Unwrap(PrintNat(code) + ";" + (PrintNat(x) + ";" + PrintNat(y)), released);
  }

  /** Whatever is reported can be read back without loss: button, action, the three modifiers and the position. */
  lemma ReportRoundTrip(i: MouseInput)
    requires Encode(i).Some?
    ensures ReadReport(Encode(i).value)
            == Some(Report(i.button, i.action, i.modifiers % 2 == 1, i.modifiers / 2 % 2 == 1,
                           i.modifiers / 4 % 2 == 1, Position(i).0.value, Position(i).1.value))
  {
    hide Printed, ReadReport, ReportOf;
    var (x, y) := Position(i);
    CodeReads(i, x.value, y.value);
    PrintedReads(Code(i), x.value, y.value, i.action == Release);
  }

  /** Events are refused exactly outside the surface, in other formats, or without a pixel position. */
  lemma ReportedIff(i: MouseInput)
    ensures Encode(i).Some? <==>
              && i.row < i.rows && i.col < i.cols
              && (i.format == SgrFormat || (i.format == SgrPixelsFormat && i.pixelX.Some? && i.pixelY.Some?))
  {
    hide Printed, Code;
  }

  /** The text of a report and the meaning of its bits: the button in the lowest two bits and the wheel in bit 6,
      motion, control, alt and shift in bits 5 to 2, one-based cells or pixels, `m` for a release. */
  lemma ReportText(i: MouseInput) returns (code: nat)
    requires Encode(i).Some?
    ensures var x := if i.format == SgrPixelsFormat then i.pixelX else Some(i.col + 1);
            var y := if i.format == SgrPixelsFormat then i.pixelY else Some(i.row + 1);
            && x.Some? && y.Some? && i.col < U32_MAX && i.row < U32_MAX
            && Encode(i).value == "\U{1b}[<" + (PrintNat(code) + ";" + (PrintNat(x.value) + ";" + PrintNat(y.value)))
                                  + (if i.action == Release then "m" else "M")
    ensures code % 4 == match i.button case Left => 0 case Middle => 1 case Right => 2 case NoButton => 3
                                       case WheelUp => 0 case WheelDown => 1
    ensures code / 64 == if i.button == WheelUp || i.button == WheelDown then 1 else 0
    ensures code / 32 % 2 == if i.action == Motion then 1 else 0
    ensures code / 16 % 2 == if i.modifiers / 2 % 2 == 1 then 1 else 0
    ensures code / 8 % 2 == if i.modifiers / 4 % 2 == 1 then 1 else 0
    ensures code / 4 % 2 == if i.modifiers % 2 == 1 then 1 else 0
  {
    hide PrintNat;
    code := Code(i);
    var shift, control, alt := i.modifiers % 2 == 1, i.modifiers / 2 % 2 == 1, i.modifiers / 4 % 2 == 1;
    ButtonReads(i.button);
    CodeParts(Wheel(i.button), Bit(i.action == Motion), Bit(control), Bit(alt), Bit(shift),
              ButtonCode(i.button) - 64 * Wheel(i.button));
  }
}
