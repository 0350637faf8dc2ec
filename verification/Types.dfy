/** Values shared by every part of the model: integer widths, protocol enumerations and the
    terminal state a pane owns. */
module Types {
  const U32_MAX: nat := 0xffff_ffff
  const U64_MAX: nat := 0xffff_ffff_ffff_ffff

  type byte = x: int | 0 <= x < 256
  type u32 = x: int | 0 <= x <= U32_MAX
  type u64 = x: int | 0 <= x <= U64_MAX

  datatype Option<+T> = None | Some(value: T)
  datatype Result<+T, +E> = Ok(value: T) | Err(error: E)

  // Rust's `u64::saturating_add(1)`.
  function SatInc(v: u64): u64 {
    if v < U64_MAX then v + 1 else v
  }

  function Min(a: int, b: int): int {
    if a <= b then a else b
  }

  function Max(a: int, b: int): int {
    if a <= b then b else a
  }

  // Protocol enumerations (schema/nmux.fbs).
  datatype SplitAxis = NoSplit | Horizontal | Vertical
  datatype SurfaceKind = Main | Alternate
  datatype CursorShape = Block | Beam | Underline
  datatype PatchKind = ReplaceRows | CursorOnly | ModeOnly | FullRefreshRequired | ColorOnly
  datatype ResizePolicy = Fixed | Leader | ActiveClient | Manual
  datatype RowPrompt = NoPrompt | Prompt | Continuation
  datatype CellContent = OutputCell | InputCell | PromptCell
  datatype MouseTracking = NoTracking | X10Tracking | NormalTracking | ButtonTracking | AnyTracking
  datatype MouseFormat = X10Format | Utf8Format | SgrFormat | UrxvtFormat | SgrPixelsFormat

  datatype Cursor = Cursor(row: u32, col: u32, visible: bool, shape: CursorShape, blinking: bool)

  datatype Modes = Modes(
    bracketedPaste: bool, mouseTracking: bool, focusReporting: bool, applicationKeypad: bool,
    applicationCursor: bool, origin: bool, wraparound: bool,
    trackingMode: MouseTracking, mouseFormat: MouseFormat)

  datatype Colors = Colors(fg: u32, bg: u32, cursor: u32, cursorSet: bool, palette: seq<u32>)

  datatype Style = Style(fg: u32, bg: u32, underline: u32, flags: u32)

  datatype CellRun = CellRun(
    text: string, widths: seq<byte>, styleId: u32, flags: u32, hyperlinkId: u32, content: CellContent)

  /** The five parallel row vectors of a surface or a scrollback. */
  datatype Rows = Rows(
    lines: seq<string>, runs: seq<seq<CellRun>>, prompts: seq<RowPrompt>,
    dirty: seq<bool>, kitty: seq<bool>)

  const DEFAULT_MODES: Modes :=
    Modes(false, false, false, false, false, false, true, NoTracking, X10Format)
  const DEFAULT_COLORS: Colors := Colors(0, 0, 0, false, [])
  const DEFAULT_STYLE: Style := Style(0, 0, 0, 0)

  function PlainRun(text: string): CellRun {
    CellRun(text, seq(|text|, _ => 1), 0, 0, 0, OutputCell)
  }

  // A stream from its chunks.
  function Joined(chunks: seq<seq<byte>>): seq<byte> {
    if chunks == [] then [] else Joined(chunks[..|chunks| - 1]) + chunks[|chunks| - 1]
  }

  lemma Regroup<T>(a: seq<T>, b: seq<T>, c: seq<T>)
    ensures a + (b + c) == a + b + c
  {
  }

  // Concatenated text of a row's runs.
  function RunText(runs: seq<CellRun>): string {
    if runs == [] then "" else runs[0].text + RunText(runs[1..])
  }

  lemma PlainRunText(text: string)
    ensures RunText([PlainRun(text)]) == text
  {
    var runs := [PlainRun(text)];
    assert runs[1..] == [];
  }
}
