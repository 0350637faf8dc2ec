/** Local echo: a typed character is shown before the daemon confirms it, and prediction backs off after
    repeated misses until a few more keys were typed. */
module SpeculativeEcho {
  import opened Types
  import opened Mirror

  const MAX_CONSECUTIVE_MISSES: nat := 2
  const RECOVERY_PREDICTABLE_KEYS: nat := 3

  datatype Prediction = Prediction(paneId: string, baseVersion: u64, inputSeq: u64, row: u32, col: u32, text: string)

  datatype Overlay = Overlay(prediction: Option<Prediction>, misses: nat, suppressed: nat)

  /** What the client learns from one surface frame. */
  datatype SurfaceUpdate = SurfaceUpdate(
    paneId: string, version: u64, isSnapshot: bool, surface: Option<SurfaceKind>, cursor: Option<Cursor>,
    rows: seq<RowUpdate>)

  datatype Outcome = NoPrediction | Pending | Confirmed | Mismatched

  // ---------- specification ----------

  // One printable ASCII character.
  predicate Printable(text: string) {
    |text| == 1 && ' ' <= text[0] <= '~'
  }

  // Whether a key would be echoed at the end of the cursor's row.
  predicate Predictable(v: View, text: string) {
    && Printable(text) && v.cursor.Some? && v.surface == Main && v.cursor.value.visible
    && v.cursor.value.row < v.rows && v.cursor.value.col < v.cols
    && v.cursor.value.row < |v.screen.lines| && v.cursor.value.col == |v.screen.lines[v.cursor.value.row]|
  }

  function Keyed(o: Overlay, v: View, inputSeq: u64, text: string): Overlay {
    if o.prediction.Some? || !Predictable(v, text) then o
    else if o.misses < MAX_CONSECUTIVE_MISSES then
      o.(prediction := Some(Prediction(v.paneId, v.version, inputSeq, v.cursor.value.row, v.cursor.value.col, text)))
    else if o.suppressed + 1 < RECOVERY_PREDICTABLE_KEYS then o.(suppressed := o.suppressed + 1)
    else o.(misses := 0, suppressed := 0)
  }

  function RowOf(rows: seq<RowUpdate>, row: nat): (r: Option<RowUpdate>)
    ensures r.Some? ==> r.value in rows && r.value.row == row
  {
    if rows == [] then None else if rows[0].row == row then Some(rows[0]) else RowOf(rows[1..], row)
  }

  // What an update says about a prediction.
  datatype Verdict = Unrelated | Rebased | Shown | Contradicted | Displaced

  function Judge(p: Prediction, u: SurfaceUpdate): Verdict {
    if p.paneId != u.paneId then Unrelated
    else if u.isSnapshot || (u.surface.Some? && u.surface.value != Main) then Contradicted
    else if u.version <= p.baseVersion then Unrelated
    else if u.cursor.Some? && (u.cursor.value.row != p.row || u.cursor.value.col < p.col) then Displaced
    else
      var r := RowOf(u.rows, p.row);
      if r.None? then Rebased
      else if p.col >= |r.value.text| then Displaced
      else if [r.value.text[p.col]] == p.text then Shown
      else Contradicted
  }

  function Reconciled(o: Overlay, u: SurfaceUpdate): (Overlay, Outcome) {
    if o.prediction.None? then (o, NoPrediction)
    else
      match Judge(o.prediction.value, u)
      case Unrelated => (o, Pending)
      case Rebased => (o.(prediction := Some(o.prediction.value.(baseVersion := u.version))), Pending)
      case Shown => (Overlay(None, 0, 0), Confirmed)
      case Contradicted => (Overlay(None, Min(o.misses + 1, 255), 0), Mismatched)
      case Displaced => (Overlay(None, o.misses, 0), Mismatched)
  }

  function VisibleRows(lines: seq<string>): (n: nat)
    ensures n <= |lines| && (n > 0 ==> lines[n - 1] != "")
    ensures forall i | n <= i < |lines| :: lines[i] == ""
  {
    if lines == [] then 0
    else if lines[|lines| - 1] != "" then |lines|
    else VisibleRows(lines[..|lines| - 1])
  }

  datatype Decoration = Undecorated | Underlined

  function Decorated(text: string, d: Decoration): string {
    match d
    case Undecorated => text
    case Underlined => "\U{1B}[4m" + text + "\U{1B}[24m"
  }

  // The rows shown with the prediction, before they are joined. `drawn` are the surface's rows as they are drawn
  // without it, plain or with their styles.
  function Rendered(o: Overlay, v: View, drawn: seq<string>, d: Decoration): Option<seq<string>>
    requires |drawn| == |v.screen.lines|
  {
    if o.prediction.None? then None
    else
      var p := o.prediction.value;
      if p.paneId != v.paneId || p.baseVersion != v.version || p.row >= |v.screen.lines|
         || p.col != |v.screen.lines[p.row]| then None
      else
        var n := Max(VisibleRows(v.screen.lines), p.row + 1);
        Some(drawn[..n][p.row := drawn[p.row] + Decorated(p.text, d)])
  }

  // ---------- the overlay object ----------

  class SpeculativeEchoOverlay {
    var prediction: Option<Prediction>
    var consecutiveMisses: byte
    var suppressedPredictableKeys: byte

    constructor ()
      ensures State() == Overlay(None, 0, 0)
    {
      prediction, consecutiveMisses, suppressedPredictableKeys := None, 0, 0;
    }

    function State(): Overlay
      reads this
    {
      Overlay(prediction, consecutiveMisses, suppressedPredictableKeys)
    }

    method Render(v: View, drawn: seq<string>, d: Decoration) returns (shown: Option<seq<string>>)
      requires |drawn| == |v.screen.lines|
      ensures shown == Rendered(State(), v, drawn, d)
    {
      if prediction.None? || prediction.value.paneId != v.paneId || prediction.value.baseVersion != v.version {
        return None;
      }
      var p := prediction.value;
      if p.row >= |v.screen.lines| || p.col != |v.screen.lines[p.row]| {
        return None;
      }
      var visible := Max(VisibleRows(v.screen.lines), p.row + 1);
      var rows: seq<string> := [];
      for current := 0 to visible
        invariant rows == if p.row < current then drawn[..current][p.row := drawn[p.row] + Decorated(p.text, d)]
                          else drawn[..current]
      {
        var row := drawn[current];
        if current == p.row {
          row := row + Decorated(p.text, d);
        }
        rows := rows + [row];
      }
      shown := Some(rows);
    }

    method RecordSuppressedPredictableKey()
      modifies this
      ensures prediction == old(prediction)
      ensures State() == if old(suppressedPredictableKeys) + 1 < RECOVERY_PREDICTABLE_KEYS
                         then old(State()).(suppressed := old(suppressedPredictableKeys) + 1)
                         else old(State()).(misses := 0, suppressed := 0)
    {
      suppressedPredictableKeys := Min(suppressedPredictableKeys + 1, 255);
      if suppressedPredictableKeys >= RECOVERY_PREDICTABLE_KEYS {
        consecutiveMisses, suppressedPredictableKeys := 0, 0;
      }
    }

    method PredictPrintableKey(v: View, inputSeq: u64, text: string) returns (shown: Option<seq<string>>)
      modifies this
      ensures State() == old(Keyed(State(), v, inputSeq, text))
      ensures shown == if old(prediction).None? && prediction.Some?
                       then Rendered(State(), v, v.screen.lines, Undecorated) else None
    {
      shown := None;
      if prediction.Some? || !Printable(text) || v.cursor.None? {
        return;
      }
      var cursor := v.cursor.value;
      if v.surface != Main || !cursor.visible || cursor.row >= v.rows || cursor.col >= v.cols {
        return;
      }
      if cursor.row >= |v.screen.lines| || cursor.col != |v.screen.lines[cursor.row]| {
        return;
      }
      if consecutiveMisses >= MAX_CONSECUTIVE_MISSES {
        RecordSuppressedPredictableKey();
        return;
      }
      prediction := Some(Prediction(v.paneId, v.version, inputSeq, cursor.row, cursor.col, text));
      shown := Render(v, v.screen.lines, Undecorated);
    }

    method ClearMismatched() returns (outcome: Outcome)
      modifies this
      ensures State() == Overlay(None, Min(old(consecutiveMisses) + 1, 255), 0) && outcome == Mismatched
    {
      prediction := None;
      consecutiveMisses := Min(consecutiveMisses + 1, 255);
      suppressedPredictableKeys := 0;
      outcome := Mismatched;
    }

    method ClearDisplaced() returns (outcome: Outcome)
      modifies this
      ensures State() == Overlay(None, old(consecutiveMisses), 0) && outcome == Mismatched
    {
      prediction := None;
      suppressedPredictableKeys := 0;
      outcome := Mismatched;
    }

    method ReconcileUpdate(u: SurfaceUpdate) returns (outcome: Outcome)
      modifies this
      ensures (State(), outcome) == old(Reconciled(State(), u))
    {
      if prediction.None? {
        return NoPrediction;
      }
      var p := prediction.value;
      if p.paneId != u.paneId {
        return Pending;
      }
      if u.isSnapshot || (u.surface.Some? && u.surface.value != Main) {
        outcome := ClearMismatched();
        return;
      }
      if u.version <= p.baseVersion {
        return Pending;
      }
      if u.cursor.Some? && (u.cursor.value.row != p.row || u.cursor.value.col < p.col) {
        outcome := ClearDisplaced();
        return;
      }
      var row := RowOf(u.rows, p.row);
      if row.None? {
        prediction := Some(p.(baseVersion := u.version));
        return Pending;
      }
      if p.col >= |row.value.text| {
        outcome := ClearDisplaced();
      } else if [row.value.text[p.col]] == p.text {
        prediction, consecutiveMisses, suppressedPredictableKeys := None, 0, 0;
        outcome := Confirmed;
      } else {
        outcome := ClearMismatched();
      }
    }
  }

  // ---------- runs ----------

  /** Misses stop at two, a prediction is only pending below that, and keys are only being counted while
      predictions are off. */
  predicate Inv(o: Overlay) {
    && o.misses <= MAX_CONSECUTIVE_MISSES && o.suppressed < RECOVERY_PREDICTABLE_KEYS
    && (o.prediction.Some? ==> o.misses < MAX_CONSECUTIVE_MISSES)
    && (o.suppressed > 0 ==> o.misses == MAX_CONSECUTIVE_MISSES && o.prediction.None?)
  }

  datatype Action = Key(view: View, inputSeq: u64, text: string) | Update(update: SurfaceUpdate)

  function Step(o: Overlay, a: Action): Overlay {
    match a
    case Key(v, inputSeq, text) => Keyed(o, v, inputSeq, text)
    case Update(u) => Reconciled(o, u).0
  }

  function Run(o: Overlay, actions: seq<Action>): Overlay {
    if actions == [] then o else Step(Run(o, actions[..|actions| - 1]), actions[|actions| - 1])
  }

  lemma {:induction false} RunKeepsInv(o: Overlay, actions: seq<Action>)
    requires Inv(o)
    ensures Inv(Run(o, actions))
  {
    if actions != [] {
      RunKeepsInv(o, actions[..|actions| - 1]);
    }
  }

  predicate IsPredictableKey(a: Action) {
    a.Key? && Predictable(a.view, a.text)
  }

  function PredictableKeys(actions: seq<Action>): nat {
    if actions == [] then 0
    else PredictableKeys(actions[..|actions| - 1]) + if IsPredictableKey(actions[|actions| - 1]) then 1 else 0
  }

  /** While predictions are off, whatever updates and other keys come in between, exactly the predictable keys
      count: below three nothing is shown, and the third turns predictions on again. */
  lemma {:induction false} BackOffLastsThreeKeys(actions: seq<Action>)
    requires PredictableKeys(actions) <= RECOVERY_PREDICTABLE_KEYS
    requires actions != [] && PredictableKeys(actions) == RECOVERY_PREDICTABLE_KEYS ==>
               IsPredictableKey(actions[|actions| - 1])
    ensures var off := Overlay(None, MAX_CONSECUTIVE_MISSES, 0);
            Run(off, actions) == if PredictableKeys(actions) < RECOVERY_PREDICTABLE_KEYS
                                 then off.(suppressed := PredictableKeys(actions))
                                 else Overlay(None, 0, 0)
  {
    if actions != [] {
      BackOffLastsThreeKeys(actions[..|actions| - 1]);
    }
  }

  predicate Misses(o: Overlay, u: SurfaceUpdate) {
    o.prediction.Some? && Judge(o.prediction.value, u) == Contradicted
  }

  /** Two contradicted predictions in a row switch predictions off; then exactly three predictable keys are
      swallowed and the next one is predicted. */
  lemma TwoMissesThreeKeysThenPrediction(
      o: Overlay, u1: SurfaceUpdate, again: Action, u2: SurfaceUpdate, k: seq<Action>)
    requires Inv(o) && o.misses == 0 && Misses(o, u1)
    requires IsPredictableKey(again) && Misses(Step(Reconciled(o, u1).0, again), u2)
    requires |k| == 4 && forall i | 0 <= i < 4 :: IsPredictableKey(k[i])
    ensures var off := Reconciled(Step(Reconciled(o, u1).0, again), u2).0;
            && off == Overlay(None, 2, 0)
            && (forall i | 0 <= i <= 3 :: Run(off, k[..i]).prediction.None?)
            && Run(off, k).prediction.Some?
  {
    var off := Overlay(None, 2, 0);
    assert k[..4] == k;
    forall i | 0 < i <= 4 ensures k[..i][..i - 1] == k[..i - 1] && k[..i][i - 1] == k[i - 1] {
    }
    assert Run(off, k[..0]) == off;
    assert Run(off, k[..1]) == Overlay(None, 2, 1);
    assert Run(off, k[..2]) == Overlay(None, 2, 2);
    assert Run(off, k[..3]) == Overlay(None, 0, 0);
  }

  // ---------- what is shown and what confirms it ----------

  /** A prediction is shown at once, however it is drawn: exactly behind the confirmed text of the cursor's row. */
  lemma PredictionIsShown(
      o: Overlay, v: View, inputSeq: u64, text: string, drawn: seq<string>, d: Decoration)
    requires |drawn| == |v.screen.lines| && o.prediction.None? && Keyed(o, v, inputSeq, text).prediction.Some?
    ensures Predictable(v, text)
    ensures var rows := Rendered(Keyed(o, v, inputSeq, text), v, drawn, d);
            var row := v.cursor.value.row;
            && rows.Some? && row < |rows.value| <= |v.screen.lines|
            && rows.value[row] == drawn[row]
                                  + (if d == Undecorated then text else "\U{1B}[4m" + text + "\U{1B}[24m")
            && (forall i | 0 <= i < |rows.value| && i != row :: rows.value[i] == drawn[i])
            && (forall i | |rows.value| <= i < |v.screen.lines| :: v.screen.lines[i] == "")
  {
  }

  // The summary `apply_patch` returns.
  function UpdateOf(f: Frame): SurfaceUpdate
    requires f.Patch?
  {
    SurfaceUpdate(f.paneId, f.version, false, None, Some(f.cursor), f.rowUpdates)
  }

  lemma {:induction false} UntouchedRow(screen: Rows, rows: seq<RowUpdate>, row: nat)
    requires Sized(screen, |screen.lines|) && RowsValid(rows, |screen.lines|) && row < |screen.lines|
    requires forall i | 0 <= i < |rows| :: rows[i].row != row
    ensures PutRows(screen, rows).lines[row] == screen.lines[row]
    decreases |rows|
  {
    if rows != [] {
      UntouchedRow(PutRow(screen, rows[0]), rows[1..], row);
    }
  }

  lemma {:induction false} PutRowsShows(screen: Rows, rows: seq<RowUpdate>, row: nat)
    requires Sized(screen, |screen.lines|) && RowsValid(rows, |screen.lines|) && RowOf(rows, row).Some?
    ensures row < |screen.lines| && PutRows(screen, rows).lines[row] == RowOf(rows, row).value.text
    decreases |rows|
  {
    if rows[0].row == row {
      UntouchedRow(PutRow(screen, rows[0]), rows[1..], row);
    } else {
      PutRowsShows(PutRow(screen, rows[0]), rows[1..], row);
    }
  }

  /** Only a character that the client's mirror really shows at the predicted place confirms a prediction. */
  lemma ConfirmedIsOnScreen(o: Overlay, v: View, f: Frame)
    requires f.Patch? && MirrorValid(v) && ApplyPatch(v, f).Ok?
    requires Reconciled(o, UpdateOf(f)).1 == Confirmed
    ensures var p := o.prediction.value; var lines := ApplyPatch(v, f).value.screen.lines;
            && p.paneId == v.paneId && p.row < |lines| && p.col < |lines[p.row]| && [lines[p.row][p.col]] == p.text
  {
    var p := o.prediction.value;
    assert RowOf(f.rowUpdates, p.row).value in f.rowUpdates;
    PutRowsShows(v.screen, f.rowUpdates, p.row);
  }

  lemma {:induction false} RowOfIsFirst(rows: seq<RowUpdate>, row: nat)
    ensures match RowOf(rows, row)
            case None => forall i | 0 <= i < |rows| :: rows[i].row != row
            case Some(r) => exists i | 0 <= i < |rows| ::
              rows[i] == r && r.row == row && forall j | 0 <= j < i :: rows[j].row != row
  {
    if rows != [] && rows[0].row != row {
      RowOfIsFirst(rows[1..], row);
      forall i | 1 <= i < |rows| ensures rows[i] == rows[1..][i - 1] {
      }
      if RowOf(rows, row).Some? {
        var i :| 0 <= i < |rows[1..]| && rows[1..][i] == RowOf(rows, row).value
                 && forall j | 0 <= j < i :: rows[1..][j].row != row;
        assert rows[i + 1] == RowOf(rows, row).value;
        forall j | 0 <= j < i + 1 ensures rows[j].row != row {
        }
      }
    }
  }

  /** And every patch that shows it there confirms it: a newer version of the pane, the cursor on the row and not
      before the place, and the row listed. */
  lemma ConfirmedExactly(o: Overlay, v: View, f: Frame)
    requires f.Patch? && MirrorValid(v) && ApplyPatch(v, f).Ok?
    requires o.prediction.Some? && o.prediction.value.paneId == f.paneId
    ensures var p := o.prediction.value; var lines := ApplyPatch(v, f).value.screen.lines;
            Reconciled(o, UpdateOf(f)).1 == Confirmed
            <==> && f.version > p.baseVersion && f.cursor.row == p.row && f.cursor.col >= p.col
                 && (exists i | 0 <= i < |f.rowUpdates| :: f.rowUpdates[i].row == p.row)
                 && p.row < |lines| && p.col < |lines[p.row]| && [lines[p.row][p.col]] == p.text
  {
    var p := o.prediction.value;
    RowOfIsFirst(f.rowUpdates, p.row);
    if RowOf(f.rowUpdates, p.row).Some? {
      assert RowOf(f.rowUpdates, p.row).value in f.rowUpdates;
      PutRowsShows(v.screen, f.rowUpdates, p.row);
    }
  }

  // The update is about the prediction's pane and the cursor has not left the predicted place.
  predicate Follows(p: Prediction, u: SurfaceUpdate) {
    && u.paneId == p.paneId && !u.isSnapshot && (u.surface.None? || u.surface.value == Main)
    && u.version > p.baseVersion
    && (u.cursor.None? || (u.cursor.value.row == p.row && u.cursor.value.col >= p.col))
  }

  /** What an update makes of a prediction, in full: confirming clears all counts, only a snapshot, the other surface
      or another character at the place counts as a miss, a row that is not listed moves the prediction to the new
      version, and old updates and other panes change nothing. */
  lemma UpdateDoes(o: Overlay, u: SurfaceUpdate)
    requires o.prediction.Some?
    ensures var p := o.prediction.value; var r := RowOf(u.rows, p.row); var (n, outcome) := Reconciled(o, u);
            && (u.paneId != p.paneId ==> n == o && outcome == Pending)
            && (u.paneId == p.paneId && (u.isSnapshot || u.surface == Some(Alternate)) ==>
                  n == Overlay(None, if o.misses < 255 then o.misses + 1 else 255, 0) && outcome == Mismatched)
            && (u.paneId == p.paneId && !u.isSnapshot && u.surface != Some(Alternate) ==>
                  && (u.version <= p.baseVersion ==> n == o && outcome == Pending)
                  && (u.version > p.baseVersion && !Follows(p, u) ==>
                        n == Overlay(None, o.misses, 0) && outcome == Mismatched))
            && (Follows(p, u) ==>
                  && (r.None? ==> n == o.(prediction := Some(p.(baseVersion := u.version))) && outcome == Pending)
                  && (r.Some? && |r.value.text| <= p.col ==> n == Overlay(None, o.misses, 0) && outcome == Mismatched)
                  && (r.Some? && |r.value.text| > p.col ==>
                        if [r.value.text[p.col]] == p.text then n == Overlay(None, 0, 0) && outcome == Confirmed
                        else n == Overlay(None, if o.misses < 255 then o.misses + 1 else 255, 0)
                             && outcome == Mismatched))
  {
  }

  /** A key is predicted exactly when nothing is pending, fewer than two misses stand, and one printable ASCII
      character goes to the end of the visible cursor's row on the main surface; it is expected right there. */
  lemma KeyPredicts(o: Overlay, v: View, inputSeq: u64, text: string)
    requires o.prediction.None?
    ensures Keyed(o, v, inputSeq, text).prediction.Some?
            <==> && o.misses < 2 && |text| == 1 && 0x20 <= text[0] as int <= 0x7e
                 && v.surface == Main && v.cursor.Some? && v.cursor.value.visible
                 && v.cursor.value.col < v.cols && v.cursor.value.row < v.rows
                 && v.cursor.value.row < |v.screen.lines|
                 && v.cursor.value.col == |v.screen.lines[v.cursor.value.row]|
    ensures Keyed(o, v, inputSeq, text).prediction.Some? ==>
              Keyed(o, v, inputSeq, text)
              == Overlay(Some(Prediction(v.paneId, v.version, inputSeq, v.cursor.value.row, v.cursor.value.col, text)),
                         o.misses, o.suppressed)
  {
  }

  /** A pending prediction is drawn exactly over the version it was made for, behind the text of its row. */
  lemma DrawnExactly(o: Overlay, v: View, drawn: seq<string>, d: Decoration)
    requires |drawn| == |v.screen.lines|
    ensures Rendered(o, v, drawn, d).Some?
            <==> && o.prediction.Some? && o.prediction.value.paneId == v.paneId
                 && o.prediction.value.baseVersion == v.version && o.prediction.value.row < |v.screen.lines|
                 && o.prediction.value.col == |v.screen.lines[o.prediction.value.row]|
  {
  }
}
