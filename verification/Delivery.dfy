/** One attached client end to end: panes change, come and go, also under names used before; the daemon announces
    them on the latest-wins channel, the writer task picks a patch or a snapshot per pane, and the client applies
    what arrives. All of it interleaves freely. Mirrors never show anything but a view some pane of that name
    really had, and once the client has caught up they show what was announced last. */
module Delivery {
  import opened Types
  import opened PaneUpdate
  import opened Mirror
  import opened Sync
  import opened Channel
  import opened ClientLink

  datatype Moment = Moment(paneId: string, version: u64)

  /** `history` records the view of every version each pane had since it was created, and `past` every view ever;
      `announced` is the daemon's own list of versions this client was told about, which outlives the panes, and
      `told` are the names that were announced since their pane was created. `stale` are the panes whose stored
      patch went wrong, by an update a patch cannot express or by a quiet update that dropped a palette diff. */
  datatype Daemon = Daemon(
    panes: map<string, Pane>, history: map<Moment, View>, past: set<View>, announced: map<string, u64>,
    stale: set<string>, told: set<string>)

  datatype State = State(daemon: Daemon, link: Link)

  datatype Action =
    | Output(id: string, update: Update)
    | Resize(id: string, cols: u32, rows: u32, update: Update)
    | Shrink(id: string, cols: u32, rows: u32)
    | Create(id: string, host: Host, cols: u32, rows: u32)
    | Close(id: string)
    | Announce(id: string, snapshotSize: nat, patchSize: nat)
    | ReadChannel
    | WriteOne(id: string)
    | Receive

  // ---------- the daemon ----------

  /** `surface_frame_bundle_for_pane`. */
  function Bundle(p: Pane, snapshotSize: nat, patchSize: nat): Signal {
    Signal(p.id, p.surfaceVersion, false, Some(Encoded(SnapshotFrame(p), snapshotSize)),
           if p.patchKind == FullRefreshRequired || p.surfaceVersion == 0 then None
           else Some(SurfacePatch(p.surfaceVersion - 1, Encoded(PatchFrame(p, p.surfaceVersion - 1), patchSize))))
  }

  ghost predicate AllStylesKnown(p: Pane)
    requires Sized(p.screen, |p.screen.lines|)
  {
    StylesInTable(p, IndicesBelow(|p.screen.lines|))
  }

  predicate IsAnnounced(p: Pane, announced: map<string, u64>) {
    p.id in announced && announced[p.id] == p.surfaceVersion
  }

  /** What can be sent about a pane to a client that shows `next` of its name when the writer comes to it: the
      lines fit the rows, the styles are known, and the writer's choice by version number is right. */
  ghost predicate Sendable(p: Pane, next: Option<View>) {
    && Sized(p.screen, |p.screen.lines|)
    && |p.screen.lines| <= p.rows && AllStylesKnown(p)
    && (next.Some? ==> Whole(Bundle(p, 0, 0)) && Meets(next.value, Bundle(p, 0, 0)))
  }

  /** The stale panes after an update. */
  ghost function StaleAfter(p: Pane, u: Update, stale: set<string>): set<string> {
    if SurfaceChanged(p, u, false) then
      if KindOfChange(p, u, false) == FullRefreshRequired || PatchWorks(p, u) then stale - {p.id} else stale + {p.id}
    else if p.paletteDiff == None then stale
    else stale + {p.id}
  }

  /** Panes change freely, as long as versions are not exhausted; only announcing has a condition. */
  ghost predicate Enabled(s: State, a: Action) {
    var d := s.daemon;
    match a
    case Output(id, u) =>
      id in d.panes && (SurfaceChanged(d.panes[id], u, false) ==> d.panes[id].surfaceVersion < U64_MAX)
    case Resize(id, _, _, _) => id in d.panes && d.panes[id].surfaceVersion < U64_MAX
    case Shrink(id, _, _) => id in d.panes && d.panes[id].surfaceVersion < U64_MAX
    case Create(id, _, _, _) => id != "" && id !in d.panes
    case Close(id) => id in d.panes
    case Announce(id, _, _) =>
      && id in d.panes && !s.link.stopped
      && (IsAnnounced(d.panes[id], d.announced) || Sendable(d.panes[id], Meeting(s.link, id)))
    case ReadChannel => s.link.unread && s.link.reading == map[]
    case WriteOne(id) => id in s.link.reading
    case Receive => s.link.wire != []
  }

  function WithPane(d: Daemon, p: Pane): Daemon
    requires Sized(p.screen, |p.screen.lines|)
  {
    d.(panes := d.panes[p.id := p], history := d.history[Moment(p.id, p.surfaceVersion) := ViewOf(p)],
       past := d.past + {ViewOf(p)})
  }

  // A pane of the name starts over.
  function Renewed(d: Daemon, id: string): Daemon {
    d.(history := map m | m in d.history && m.paneId != id :: d.history[m], told := d.told - {id})
  }

  // A pane changed in a way that leaves the given panes stale.
  function WithChanged(d: Daemon, p: Pane, stale: set<string>): Daemon
    requires Sized(p.screen, |p.screen.lines|)
  {
    WithPane(d.(stale := stale), p)
  }

  // ---------- announcing ----------

  function WithAnnounced(d: Daemon, id: string, version: u64): Daemon {
    d.(announced := d.announced[id := version], told := d.told + {id})
  }

  ghost function SignalledBy(s: State, cap: nat, b: Signal): State {
    var link := Signalled(s.link, cap, b);
    State(if link.stopped then s.daemon else WithAnnounced(s.daemon, b.paneId, b.version), link)
  }

  // `signal_changed_surface_frames_to_live_client` for one pane; a failed signal ends the serving loop.
  ghost function Announced(s: State, cap: nat, p: Pane, snapshotSize: nat, patchSize: nat): State {
    if IsAnnounced(p, s.daemon.announced) then s else SignalledBy(s, cap, Bundle(p, snapshotSize, patchSize))
  }

  // ---------- one step ----------

  ghost predicate PanesSized(d: Daemon) {
    forall id | id in d.panes :: Sized(d.panes[id].screen, |d.panes[id].screen.lines|)
  }

  predicate IsClientAction(a: Action) {
    a.ReadChannel? || a.WriteOne? || a.Receive?
  }

  ghost function Do(s: State, cap: nat, a: Action): State
    requires Enabled(s, a) && PanesSized(s.daemon)
  {
    var d := s.daemon;
    match a
    case Output(id, u) =>
      s.(daemon := WithChanged(d, Updated(d.panes[id], u, false), StaleAfter(d.panes[id], u, d.stale)))
    case Resize(id, cols, rows, u) =>
      s.(daemon := WithChanged(d, Updated(d.panes[id].(cols := cols, rows := rows), u, true), d.stale - {id}))
    case Shrink(id, cols, rows) => s.(daemon := WithChanged(d, Shrunk(d.panes[id], cols, rows), d.stale - {id}))
    case Create(id, host, cols, rows) =>
      s.(daemon := WithChanged(Renewed(d, id), NewPane(id, host, cols, rows), d.stale - {id}))
    case Close(id) => s.(daemon := d.(panes := d.panes - {id}))
    case Announce(id, n, m) => Announced(s, cap, d.panes[id], n, m)
    case ReadChannel => s.(link := ReadAll(s.link))
    case WriteOne(id) => s.(link := Written(s.link, id))
    case Receive => s.(link := Consumed(s.link))
  }

  // ---------- invariant ----------

  ghost predicate HistoryRight(h: map<Moment, View>) {
    forall m | m in h :: MirrorValid(h[m]) && h[m].paneId == m.paneId && h[m].version == m.version
  }

  predicate HasPatch(p: Pane) {
    p.patchKind != FullRefreshRequired && p.surfaceVersion > 0
  }

  function Base(p: Pane): Moment
    requires HasPatch(p)
  {
    Moment(p.id, p.surfaceVersion - 1)
  }

  /** The pane's patch starts from a version it really had, and does not lead from there to its view. */
  ghost predicate PatchFails(p: Pane, h: map<Moment, View>) {
    && Sized(p.screen, |p.screen.lines|) && HasPatch(p)
    && Base(p) in h && MirrorValid(h[Base(p)])
    && ApplyPatch(h[Base(p)], PatchFrame(p, p.surfaceVersion - 1)) != Ok(ViewOf(p))
  }

  // A stored palette diff belongs to a real change since the version before.
  ghost predicate DiffRight(p: Pane, h: map<Moment, View>) {
    p.paletteDiff.Some? ==>
      p.patchKind == ColorOnly && HasPatch(p) && Base(p) in h && h[Base(p)].colors.palette != p.colors.palette
  }

  // Only a pane nobody can patch holds more lines than rows.
  ghost predicate SurplusRight(p: Pane, h: map<Moment, View>) {
    |p.screen.lines| <= p.rows || !HasPatch(p) || Base(p) !in h
  }

  ghost predicate ContentRight(p: Pane, h: map<Moment, View>, stale: set<string>) {
    && p.id != "" && Coherent(p.screen) && SurplusRight(p, h) && DiffRight(p, h)
    && (p.id in stale <==> PatchFails(p, h))
  }

  /** The pane is the last moment of its history, and it is stale exactly when its patch fails. */
  ghost predicate PaneRight(p: Pane, id: string, h: map<Moment, View>, stale: set<string>) {
    && p.id == id && ContentRight(p, h, stale)
    && (forall m | m in h && m.paneId == id :: m.version <= p.surfaceVersion)
    && Moment(id, p.surfaceVersion) in h && h[Moment(id, p.surfaceVersion)] == ViewOf(p)
  }

  ghost predicate PanesRight(d: Daemon) {
    forall id | id in d.panes :: PaneRight(d.panes[id], id, d.history, d.stale)
  }

  /** The client ends at the view that was announced of the present pane. */
  ghost predicate ToldRight(d: Daemon, l: Link) {
    forall id | id in d.told ::
      && id in d.announced && Moment(id, d.announced[id]) in d.history
      && Final(l, id) == Some(d.history[Moment(id, d.announced[id])])
  }

  ghost predicate HistoryPast(d: Daemon) {
    HistoryRight(d.history) && forall m | m in d.history :: d.history[m] in d.past
  }

  ghost predicate Inv(s: State) {
    && PanesRight(s.daemon) && HistoryPast(s.daemon)
    && LinkRight(s.link, s.daemon.past, s.daemon.announced) && ToldRight(s.daemon, s.link)
  }

  // ---------- histories of other panes ----------

  ghost predicate AgreeBut(id: string, h: map<Moment, View>, k: map<Moment, View>) {
    forall m: Moment | m.paneId != id :: (m in h <==> m in k) && (m in h ==> h[m] == k[m])
  }

  // Panes other than the changed one keep what holds of them.
  lemma OtherPaneSurvives(
    p: Pane, id: string, h: map<Moment, View>, k: map<Moment, View>, other: string, stale: set<string>,
    now: set<string>)
    requires PaneRight(p, id, h, stale) && AgreeBut(other, h, k) && other != id && (id in now <==> id in stale)
    ensures PaneRight(p, id, k, now)
  {
    hide ApplyPatch, PatchFrame, ViewOf, Coherent;
  }

  // ---------- pane changes keep the invariant ----------

  ghost predicate NewMoment(p: Pane, h: map<Moment, View>, stale: set<string>) {
    && Sized(p.screen, |p.screen.lines|)
    && ContentRight(p, h[Moment(p.id, p.surfaceVersion) := ViewOf(p)], stale)
    && (forall m | m in h && m.paneId == p.id :: m.version < p.surfaceVersion)
  }

  // Only the changed pane may have become stale or stopped being it.
  predicate StaleBut(id: string, before: set<string>, after: set<string>) {
    after - {id} == before - {id}
  }

  lemma NewMomentAgrees(p: Pane, h: map<Moment, View>)
    requires Sized(p.screen, |p.screen.lines|)
    ensures AgreeBut(p.id, h, h[Moment(p.id, p.surfaceVersion) := ViewOf(p)])
  {
    hide ViewOf;
  }

  lemma NewMomentKeepsPanes(d: Daemon, p: Pane, stale: set<string>)
    requires PanesRight(d) && NewMoment(p, d.history, stale) && StaleBut(p.id, d.stale, stale)
    ensures PanesRight(WithChanged(d, p, stale))
  {
    hide ContentRight;
    var e := WithChanged(d, p, stale);
    NewMomentAgrees(p, d.history);
    forall id | id in e.panes ensures PaneRight(e.panes[id], id, e.history, e.stale) {
      if id != p.id {
        assert id in stale <==> id in stale - {p.id};
        assert id in d.stale <==> id in d.stale - {p.id};
        OtherPaneSurvives(d.panes[id], id, d.history, e.history, p.id, d.stale, stale);
      }
    }
  }

  lemma NewMomentKeepsHistory(d: Daemon, l: Link, p: Pane, stale: set<string>)
    requires HistoryPast(d) && ToldRight(d, l) && NewMoment(p, d.history, stale)
    ensures HistoryPast(WithChanged(d, p, stale)) && ToldRight(WithChanged(d, p, stale), l)
  {
    hide ContentRight, Final;
    ViewIds(p);
    assert Moment(p.id, p.surfaceVersion) !in d.history;
  }

  lemma ViewIds(p: Pane)
    requires Sized(p.screen, |p.screen.lines|)
    ensures MirrorValid(ViewOf(p)) && ViewOf(p).paneId == p.id && ViewOf(p).version == p.surfaceVersion
  {
  }

  lemma NewMomentKeepsInv(s: State, p: Pane, stale: set<string>)
    requires Inv(s) && NewMoment(p, s.daemon.history, stale) && StaleBut(p.id, s.daemon.stale, stale)
    ensures Sized(p.screen, |p.screen.lines|)
    ensures Inv(s.(daemon := WithChanged(s.daemon, p, stale)))
  {
    hide PanesRight, ContentRight, LinkRight, HistoryPast, ToldRight;
    var d := s.daemon;
    NewMomentKeepsPanes(d, p, stale);
    NewMomentKeepsHistory(d, s.link, p, stale);
    ViewIds(p);
    MorePast(s.link, d.past, ViewOf(p), d.announced);
  }

  lemma MorePast(l: Link, past: set<View>, v: View, announced: map<string, u64>)
    requires LinkRight(l, past, announced) && MirrorValid(v)
    ensures LinkRight(l, past + {v}, announced)
  {
    hide SignalsRight, Delivers, KnownRight, ReadingRight, PublishedRight, AnnouncedRight;
    PastGrows(l, past, past + {v}, announced);
  }

  // The stored diff of a changing update is `Some` only for a palette that differs.
  lemma ChangedDiff(p: Pane, u: Update)
    requires SurfaceChanged(p, u, false)
    ensures var q := Updated(p, u, false);
            && q.patchKind == KindOfChange(p, u, false) && q.surfaceVersion == SatInc(p.surfaceVersion)
            && (q.paletteDiff.Some? ==> q.patchKind == ColorOnly && p.colors.palette != q.colors.palette)
  {
  }

  lemma ChangedOutputIsNewMoment(p: Pane, u: Update, h: map<Moment, View>, stale: set<string>)
    requires PaneRight(p, p.id, h, stale) && p.surfaceVersion < U64_MAX && SurfaceChanged(p, u, false)
    ensures NewMoment(Updated(p, u, false), h, StaleAfter(p, u, stale))
  {
    hide ApplyPatch, PatchFrame, PatchWorks, KindOfChange, SurfaceChanged, Coherent;
    var q := Updated(p, u, false);
    ChangedDiff(p, u);
    ScreenAfterUpdate(p, u);
    CoherentSized(p);
    CoherentSized(q);
    if KindOfChange(p, u, false) != FullRefreshRequired {
      PatchReproducesPane(p, u);
    }
  }

  lemma CoherentSized(p: Pane)
    requires Coherent(p.screen)
    ensures Sized(p.screen, |p.screen.lines|)
  {
  }

  /** A quiet update makes a pane stale exactly when it drops a palette diff. */
  lemma QuietOutputKeepsPane(p: Pane, u: Update, h: map<Moment, View>, stale: set<string>)
    requires HistoryRight(h) && PaneRight(p, p.id, h, stale) && !SurfaceChanged(p, u, false)
    ensures PaneRight(Updated(p, u, false), p.id, h, StaleAfter(p, u, stale))
    ensures ViewOf(Updated(p, u, false)) == ViewOf(p) && Updated(p, u, false).surfaceVersion == p.surfaceVersion
  {
    hide ApplyPatch, PatchFrame, ViewOf, SurfaceChanged, Updated;
    var q := Updated(p, u, false);
    QuietUpdateKeepsView(p, u);
    if |p.screen.lines| <= p.rows {
      if HasPatch(p) {
        QuietUpdateFrame(p, u, p.surfaceVersion - 1);
      }
      if p.paletteDiff.Some? {
        assert MirrorValid(h[Base(p)]);
        DroppedPaletteFails(h[Base(p)], q, p.surfaceVersion - 1);
      }
    }
  }

  lemma QuietOutputKeepsInv(s: State, q: Pane, stale: set<string>)
    requires Inv(s) && PaneRight(q, q.id, s.daemon.history, stale) && StaleBut(q.id, s.daemon.stale, stale)
    ensures Sized(q.screen, |q.screen.lines|)
    ensures Inv(s.(daemon := WithChanged(s.daemon, q, stale)))
  {
    hide LinkRight, PatchFails, DiffRight, SurplusRight, Coherent, ToldRight, HistoryRight;
    var d := s.daemon;
    CoherentSized(q);
    assert d.history[Moment(q.id, q.surfaceVersion) := ViewOf(q)] == d.history;
    assert d.past + {ViewOf(q)} == d.past;
    forall id | id in d.panes && id != q.id ensures PaneRight(d.panes[id], id, d.history, stale) {
      assert PaneRight(d.panes[id], id, d.history, d.stale);
      assert id in stale <==> id in stale - {q.id};
      assert id in d.stale <==> id in d.stale - {q.id};
      SameStaleness(d.panes[id], d.history, d.stale, stale);
    }
    ToldIgnoresPanes(d, WithChanged(d, q, stale), s.link);
  }

  lemma ToldIgnoresPanes(d: Daemon, e: Daemon, l: Link)
    requires ToldRight(d, l) && e.told == d.told && e.announced == d.announced && e.history == d.history
    ensures ToldRight(e, l)
  {
    hide Final;
  }

  lemma SameStaleness(p: Pane, h: map<Moment, View>, before: set<string>, after: set<string>)
    requires ContentRight(p, h, before) && (p.id in before <==> p.id in after)
    ensures ContentRight(p, h, after)
  {
    hide PatchFails, DiffRight, SurplusRight;
  }

  lemma OutputKeepsInv(s: State, id: string, u: Update)
    requires Inv(s) && Enabled(s, Output(id, u))
    ensures var p := s.daemon.panes[id];
            Inv(s.(daemon := WithChanged(s.daemon, Updated(p, u, false), StaleAfter(p, u, s.daemon.stale))))
  {
    hide LinkRight, ContentRight, Updated, SurfaceChanged, NewMoment;
    var p := s.daemon.panes[id];
    var stale := StaleAfter(p, u, s.daemon.stale);
    assert PaneRight(p, id, s.daemon.history, s.daemon.stale);
    LinkHistory(s);
    StaleAfterOnlyId(p, u, s.daemon.stale);
    if SurfaceChanged(p, u, false) {
      ChangedOutputIsNewMoment(p, u, s.daemon.history, s.daemon.stale);
      NewMomentKeepsInv(s, Updated(p, u, false), stale);
    } else {
      QuietOutputKeepsPane(p, u, s.daemon.history, s.daemon.stale);
      QuietOutputKeepsInv(s, Updated(p, u, false), stale);
    }
  }

  lemma StaleAfterOnlyId(p: Pane, u: Update, stale: set<string>)
    ensures StaleBut(p.id, stale, StaleAfter(p, u, stale))
  {
  }

  lemma LinkHistory(s: State)
    requires Inv(s)
    ensures HistoryRight(s.daemon.history)
  {
    hide PanesRight, LinkRight, ToldRight;
  }

  lemma ResizeIsNewMoment(p: Pane, cols: u32, rows: u32, u: Update, h: map<Moment, View>, stale: set<string>)
    requires PaneRight(p, p.id, h, stale) && p.surfaceVersion < U64_MAX
    ensures NewMoment(Updated(p.(cols := cols, rows := rows), u, true), h, stale - {p.id})
  {
    NormalizeCoherent(u.screen);
    TruncateCoherent(Normalize(u.screen), rows);
  }

  lemma ShrinkIsNewMoment(p: Pane, cols: u32, rows: u32, h: map<Moment, View>, stale: set<string>)
    requires PaneRight(p, p.id, h, stale) && p.surfaceVersion < U64_MAX
    ensures NewMoment(Shrunk(p, cols, rows), h, stale - {p.id})
  {
  }

  lemma NewPanePresentable(id: string, host: Host, cols: u32, rows: u32)
    ensures var p := NewPane(id, host, cols, rows);
            && Coherent(p.screen) && Coherent(p.scrollback) && |p.screen.lines| == 2 && AllStylesKnown(p)
  {
    var p := NewPane(id, host, cols, rows);
    PlainRowsCoherent(p.screen.lines);
    PlainRowsCoherent(p.scrollback.lines);
  }

  lemma CreateIsNewMoment(id: string, host: Host, cols: u32, rows: u32, h: map<Moment, View>, stale: set<string>)
    requires id != "" && forall m | m in h :: m.paneId != id
    ensures NewMoment(NewPane(id, host, cols, rows), h, stale - {id})
  {
    NewPanePresentable(id, host, cols, rows);
  }

  /** A name can start over once its pane is gone. */
  lemma RenewKeepsInv(s: State, id: string)
    requires Inv(s) && id !in s.daemon.panes
    ensures Inv(s.(daemon := Renewed(s.daemon, id)))
  {
    hide LinkRight, ContentRight, Final;
    var d := s.daemon;
    var e := Renewed(d, id);
    assert AgreeBut(id, d.history, e.history);
    forall other | other in e.panes ensures PaneRight(e.panes[other], other, e.history, e.stale) {
      OtherPaneSurvives(d.panes[other], other, d.history, e.history, id, d.stale, d.stale);
    }
  }

  // ---------- announcing keeps the invariant ----------

  lemma BundleGoal(p: Pane, n: nat, m: nat)
    requires p.id != "" && Coherent(p.screen) && |p.screen.lines| <= p.rows && AllStylesKnown(p)
    ensures Whole(Bundle(p, n, m)) && Goal(Bundle(p, n, m)) == ViewOf(p)
  {
    hide ViewOf, Coherent, StylesInTable;
    SnapshotReproducesPane(p);
  }

  // Sizes play no part in what the writer chooses.
  lemma SizesIrrelevant(p: Pane, v: View, n: nat, m: nat)
    requires Whole(Bundle(p, 0, 0)) && Meets(v, Bundle(p, 0, 0))
    ensures Whole(Bundle(p, n, m)) && Meets(v, Bundle(p, n, m))
  {
    hide ApplyPatch, FromSnapshot, PatchFrame, SnapshotFrame;
  }

  lemma BundleRight(p: Pane, id: string, d: Daemon, n: nat, m: nat)
    requires HistoryPast(d) && PaneRight(p, id, d.history, d.stale) && |p.screen.lines| <= p.rows && AllStylesKnown(p)
    ensures SignalRight(Bundle(p, n, m), id, d.past) && Goal(Bundle(p, n, m)) == ViewOf(p)
  {
    hide ViewOf, Coherent, StylesInTable, PatchFails, SurplusRight, DiffRight;
    CoherentSized(p);
    BundleGoal(p, n, m);
    ViewIds(p);
  }

  lemma AnnounceKeepsInv(s: State, cap: nat, id: string, n: nat, m: nat)
    requires Inv(s) && Enabled(s, Announce(id, n, m))
    ensures Inv(Announced(s, cap, s.daemon.panes[id], n, m))
  {
    hide LinkRight, ContentRight, HistoryRight, Meets, Meeting, Final, Signalled, Bundle, AllStylesKnown;
    var d := s.daemon;
    var p := d.panes[id];
    assert PaneRight(p, id, d.history, d.stale);
    if !IsAnnounced(p, d.announced) {
      var b := Bundle(p, n, m);
      BundleRight(p, id, d, n, m);
      BundleNames(p, n, m);
      if Meeting(s.link, id).Some? {
        SizesIrrelevant(p, Meeting(s.link, id).value, n, m);
      }
      SignalKeepsLink(s.link, d.past, d.announced, cap, b);
    }
  }

  lemma BundleNames(p: Pane, n: nat, m: nat)
    ensures Bundle(p, n, m).paneId == p.id && Bundle(p, n, m).version == p.surfaceVersion
  {
  }

  // ---------- every run ----------

  lemma InvSizes(s: State)
    requires Inv(s)
    ensures PanesSized(s.daemon)
  {
    hide LinkRight, ToldRight;
    forall id | id in s.daemon.panes ensures Sized(s.daemon.panes[id].screen, |s.daemon.panes[id].screen.lines|) {
      assert PaneRight(s.daemon.panes[id], id, s.daemon.history, s.daemon.stale);
    }
  }

  lemma CreateKeepsInv(s: State, id: string, host: Host, cols: u32, rows: u32)
    requires Inv(s) && id != "" && id !in s.daemon.panes
    ensures var p := NewPane(id, host, cols, rows);
            && Sized(p.screen, |p.screen.lines|)
            && Inv(s.(daemon := WithChanged(Renewed(s.daemon, id), p, s.daemon.stale - {id})))
  {
    hide Inv, NewMoment, NewPane, WithChanged;
    RenewKeepsInv(s, id);
    CreateIsNewMoment(id, host, cols, rows, Renewed(s.daemon, id).history, s.daemon.stale);
    NewPaneNamed(id, host, cols, rows);
    NewMomentKeepsInv(s.(daemon := Renewed(s.daemon, id)), NewPane(id, host, cols, rows), s.daemon.stale - {id});
  }

  lemma NewPaneNamed(id: string, host: Host, cols: u32, rows: u32)
    ensures NewPane(id, host, cols, rows).id == id
  {
  }

  lemma CloseKeepsInv(s: State, id: string)
    requires Inv(s)
    ensures Inv(s.(daemon := s.daemon.(panes := s.daemon.panes - {id})))
  {
    hide LinkRight, PaneRight, HistoryRight;
    ToldIgnoresPanes(s.daemon, s.daemon.(panes := s.daemon.panes - {id}), s.link);
  }

  lemma PaneStepKeepsInv(s: State, cap: nat, a: Action)
    requires Inv(s) && PanesSized(s.daemon) && Enabled(s, a)
    requires a.Resize? || a.Shrink? || a.Create? || a.Close?
    ensures Inv(Do(s, cap, a))
  {
    hide LinkRight, ContentRight, NewMoment, Updated, ViewOf, ToldRight, HistoryPast, Renewed, WithChanged, Shrunk;
    hide NewPane;
    var d := s.daemon;
    match a
    case Resize(id, cols, rows, u) =>
      assert PaneRight(d.panes[id], id, d.history, d.stale);
      ResizeIsNewMoment(d.panes[id], cols, rows, u, d.history, d.stale);
      NewMomentKeepsInv(s, Updated(d.panes[id].(cols := cols, rows := rows), u, true), d.stale - {id});
    case Shrink(id, cols, rows) =>
      assert PaneRight(d.panes[id], id, d.history, d.stale);
      ShrinkIsNewMoment(d.panes[id], cols, rows, d.history, d.stale);
      ShrunkNamed(d.panes[id], cols, rows);
      NewMomentKeepsInv(s, Shrunk(d.panes[id], cols, rows), d.stale - {id});
    case Create(id, host, cols, rows) => CreateKeepsInv(s, id, host, cols, rows);
    case Close(id) => CloseKeepsInv(s, id);
  }

  lemma ShrunkNamed(p: Pane, cols: u32, rows: u32)
    ensures Shrunk(p, cols, rows).id == p.id
  {
  }

  // The client's steps keep what the client ends at.
  lemma LinkStepKeepsInv(s: State, n: Link)
    requires Inv(s) && LinkRight(n, s.daemon.past, s.daemon.announced)
    requires forall id :: Final(n, id) == Final(s.link, id)
    ensures Inv(s.(link := n))
  {
    hide LinkRight, PaneRight, HistoryPast, Final;
  }

  lemma StepKeepsInv(s: State, cap: nat, a: Action)
    requires Inv(s) && PanesSized(s.daemon) && Enabled(s, a)
    ensures Inv(Do(s, cap, a))
  {
    hide LinkRight, PanesRight, HistoryPast, ToldRight, Final, Updated, WithChanged, Announced, Written, Consumed;
    hide Sendable, Renewed;
    var d := s.daemon;
    match a
    case Output(id, u) => OutputKeepsInv(s, id, u);
    case Announce(id, n, m) => AnnounceKeepsInv(s, cap, id, n, m);
    case ReadChannel =>
      ReadKeepsLink(s.link, d.past, d.announced);
      LinkStepKeepsInv(s, ReadAll(s.link));
    case WriteOne(id) =>
      WriteKeepsLink(s.link, d.past, d.announced, id);
      LinkStepKeepsInv(s, Written(s.link, id));
    case Receive =>
      ConsumeKeepsLink(s.link, d.past, d.announced);
      LinkStepKeepsInv(s, Consumed(s.link));
    case _ => PaneStepKeepsInv(s, cap, a);
  }

  /** A client just attached: it shows past views, at the versions it told the daemon. */
  ghost predicate Initial(s: State) {
    var d := s.daemon;
    && PanesRight(d) && HistoryPast(d) && PastRight(d.past)
    && s.link == Link(map[], map[], false, false, map[], d.announced, [], s.link.mirrors)
    && MirrorsRight(s.link.mirrors, d.past)
    && (forall id | id in d.announced :: id in s.link.mirrors && s.link.mirrors[id].version == d.announced[id])
    && (forall id | id in d.told ::
          && id in d.announced && Moment(id, d.announced[id]) in d.history
          && s.link.mirrors[id] == d.history[Moment(id, d.announced[id])])
  }

  ghost predicate IsRun(s: State, cap: nat, run: seq<Action>)
    decreases |run|
  {
    run != [] ==> PanesSized(s.daemon) && Enabled(s, run[0]) && IsRun(Do(s, cap, run[0]), cap, run[1..])
  }

  ghost function After(s: State, cap: nat, run: seq<Action>): State
    requires IsRun(s, cap, run)
    decreases |run|
  {
    if run == [] then s else After(Do(s, cap, run[0]), cap, run[1..])
  }

  lemma {:induction false} RunKeepsInv(s: State, cap: nat, run: seq<Action>)
    requires Inv(s) && IsRun(s, cap, run)
    ensures Inv(After(s, cap, run))
    decreases |run|
  {
    if run != [] {
      StepKeepsInv(s, cap, run[0]);
      RunKeepsInv(Do(s, cap, run[0]), cap, run[1..]);
    }
  }

  lemma InitialInv(s: State)
    requires Initial(s)
    ensures Inv(s)
  {
  }

  /** In every run, also when names are used again, each mirror shows a view that a pane of its name really had, and
      the client never refuses a frame. */
  lemma MirrorsNeverWrong(s: State, cap: nat, run: seq<Action>)
    requires Initial(s) && IsRun(s, cap, run)
    ensures var t := After(s, cap, run);
            && MirrorsRight(t.link.mirrors, t.daemon.past)
            && (t.link.wire != [] ==> Received(t.link.mirrors, t.link.wire[0]).Some?)
  {
    hide Received, KnownRight, ReadingRight, PublishedRight, AnnouncedRight, Initial;
    InitialInv(s);
    RunKeepsInv(s, cap, run);
  }

  /** Once the last published set is written and received, every announced name is mirrored at its announced
      version, and every pane told about at its present version is mirrored exactly. */
  lemma SettledMirrorsAreCurrent(s: State)
    requires Inv(s) && CaughtUp(s.link)
    ensures forall id | id in s.daemon.announced ::
              && id in s.link.mirrors && Final(s.link, id) == Some(s.link.mirrors[id])
              && s.link.mirrors[id].version == s.daemon.announced[id]
    ensures forall id | id in s.daemon.panes && id in s.daemon.told
                        && IsAnnounced(s.daemon.panes[id], s.daemon.announced) ::
              id in s.link.mirrors && s.link.mirrors[id] == ViewOf(s.daemon.panes[id])
  {
    hide LinkRight, Final, ContentRight;
    var d := s.daemon;
    InvSizes(s);
    forall id | id in d.announced
      ensures id in s.link.mirrors && Final(s.link, id) == Some(s.link.mirrors[id])
      ensures s.link.mirrors[id].version == d.announced[id]
    {
      CaughtUpShowsFinal(s.link, d.past, d.announced, id);
    }
    forall id | id in d.panes && id in d.told && IsAnnounced(d.panes[id], d.announced)
      ensures id in s.link.mirrors && s.link.mirrors[id] == ViewOf(d.panes[id])
    {
      assert PaneRight(d.panes[id], id, d.history, d.stale);
    }
  }

  /** A pane that reached, under a name used before, the version last announced of that name is passed over: the
      announcement does nothing, and a client that has caught up goes on showing the earlier pane's view. It is
      right only if the two views happen to be equal. */
  lemma ReopenedPaneIsPassedOver(s: State, cap: nat, id: string, n: nat, m: nat)
    requires Inv(s) && CaughtUp(s.link) && id in s.daemon.panes && id !in s.daemon.told
    requires IsAnnounced(s.daemon.panes[id], s.daemon.announced) && !s.link.stopped
    ensures PanesSized(s.daemon) && Enabled(s, Announce(id, n, m)) && Do(s, cap, Announce(id, n, m)) == s
    ensures id in s.link.mirrors && Final(s.link, id) == Some(s.link.mirrors[id])
    ensures Sized(s.daemon.panes[id].screen, |s.daemon.panes[id].screen.lines|)
    ensures s.link.mirrors[id] == ViewOf(s.daemon.panes[id]) <==> Final(s.link, id) == Some(ViewOf(s.daemon.panes[id]))
  {
    hide LinkRight, Final, ContentRight, Sendable;
    InvSizes(s);
    assert PaneRight(s.daemon.panes[id], id, s.daemon.history, s.daemon.stale);
    CaughtUpShowsFinal(s.link, s.daemon.past, s.daemon.announced, id);
  }

  // ---------- when announcing is right ----------

  /** The writer's next choice for the pane's bundle makes the client show the pane. */
  ghost predicate Shows(p: Pane, known: map<string, u64>, mirrors: map<string, View>)
    requires Sized(p.screen, |p.screen.lines|)
  {
    var b := Bundle(p, 0, 0);
    if WantsFrame(BundledOnly(), known, b)
    then Received(mirrors, FrameFor(BundledOnly(), known, b).value) == Some(mirrors[p.id := ViewOf(p)])
    else p.id in mirrors && mirrors[p.id] == ViewOf(p)
  }

  // What a writer with these versions meets.
  function NextView(id: string, known: map<string, u64>, mirrors: map<string, View>): Option<View> {
    if id in known && id in mirrors then Some(mirrors[id]) else None
  }

  /** The condition on announcing is exact: it holds if and only if a client accepts the snapshot and the writer's
      own choice by version number leads to the pane's view. */
  lemma SendableIsExact(p: Pane, known: map<string, u64>, mirrors: map<string, View>)
    requires p.id != "" && Coherent(p.screen)
    requires p.id in known ==>
      p.id in mirrors && mirrors[p.id].version == known[p.id] && MirrorValid(mirrors[p.id])
    ensures Sized(p.screen, |p.screen.lines|)
    ensures Sendable(p, NextView(p.id, known, mirrors))
            <==> FromSnapshot(SnapshotFrame(p)) == Ok(ViewOf(p)) && Shows(p, known, mirrors)
  {
    hide ApplyPatch, PatchFrame, FromSnapshot, SnapshotFrame, ViewOf, StylesInTable, Coherent;
    CoherentSized(p);
    SnapshotReproducesPane(p);
    FrameIds(p);
    ViewIds(p);
    if p.id in known && FromSnapshot(SnapshotFrame(p)) == Ok(ViewOf(p)) {
      KnownShows(p, known, mirrors);
    }
  }

  lemma KnownShows(p: Pane, known: map<string, u64>, mirrors: map<string, View>)
    requires Sized(p.screen, |p.screen.lines|) && FromSnapshot(SnapshotFrame(p)) == Ok(ViewOf(p))
    requires p.id in known && p.id in mirrors && mirrors[p.id].version == known[p.id] && MirrorValid(mirrors[p.id])
    ensures Whole(Bundle(p, 0, 0)) && (Meets(mirrors[p.id], Bundle(p, 0, 0)) <==> Shows(p, known, mirrors))
  {
    hide ApplyPatch, PatchFrame, FromSnapshot, SnapshotFrame, ViewOf;
    FrameIds(p);
    var b := Bundle(p, 0, 0);
    if UsesPatch(known[p.id], b) {
      var f := b.patch.value.encoded.frame;
      assert FrameFor(BundledOnly(), known, b) == Some(f);
      var v := ApplyPatch(mirrors[p.id], f);
      if v.Ok? {
        assert mirrors[p.id := v.value][p.id] == v.value && mirrors[p.id := ViewOf(p)][p.id] == ViewOf(p);
      }
    } else if known[p.id] != b.version {
      assert FrameFor(BundledOnly(), known, b) == Some(b.snapshot.value.frame);
    }
  }

  lemma FrameIds(p: Pane)
    ensures SnapshotFrame(p).Snapshot? && SnapshotFrame(p).paneId == p.id
    ensures p.surfaceVersion > 0 ==>
      PatchFrame(p, p.surfaceVersion - 1).Patch? && PatchFrame(p, p.surfaceVersion - 1).paneId == p.id
  {
  }

  /** The view is one the present pane had. */
  predicate InLife(v: View, h: map<Moment, View>) {
    Moment(v.paneId, v.version) in h && h[Moment(v.paneId, v.version)] == v
  }

  predicate LinesFit(p: Pane)
    requires Sized(p.screen, |p.screen.lines|)
  {
    |p.screen.lines| <= p.rows && StylesInTable(p, IndicesBelow(|p.screen.lines|))
  }

  /** Towards a client that shows a view of the same pane, only a stale patch is in the way. */
  lemma OwnSendable(p: Pane, id: string, h: map<Moment, View>, stale: set<string>, next: Option<View>)
    requires HistoryRight(h) && PaneRight(p, id, h, stale)
    requires next.Some? ==> next.value.paneId == id && InLife(next.value, h)
    ensures Sized(p.screen, |p.screen.lines|)
    ensures Sendable(p, next)
            <==> LinesFit(p)
                 && (next.Some? && HasPatch(p) && next.value.version + 1 == p.surfaceVersion as int ==> id !in stale)
  {
    hide ApplyPatch, PatchFrame, FromSnapshot, SnapshotFrame, ViewOf, StylesInTable, Coherent;
    CoherentSized(p);
    if LinesFit(p) {
      BundleGoal(p, 0, 0);
      if next.Some? {
        OwnMeets(p, h, next.value);
      }
    }
  }

  lemma OwnMeets(p: Pane, h: map<Moment, View>, v: View)
    requires HistoryRight(h) && Sized(p.screen, |p.screen.lines|) && v.paneId == p.id && InLife(v, h)
    requires Moment(p.id, p.surfaceVersion) in h && h[Moment(p.id, p.surfaceVersion)] == ViewOf(p)
    requires Whole(Bundle(p, 0, 0)) && Goal(Bundle(p, 0, 0)) == ViewOf(p)
    ensures Meets(v, Bundle(p, 0, 0))
            <==> (HasPatch(p) && v.version + 1 == p.surfaceVersion as int ==> !PatchFails(p, h))
  {
    hide ApplyPatch, PatchFrame, FromSnapshot, SnapshotFrame, ViewOf, Goal, Whole;
    FrameIds(p);
    assert MirrorValid(v);
    if HasPatch(p) && v.version + 1 == p.surfaceVersion as int {
      assert h[Base(p)] == v;
    }
  }

  /** The versions do not let the writer take an earlier pane of the name for this one. */
  predicate NoClash(p: Pane, next: Option<View>) {
    next.Some? ==>
      next.value.version != p.surfaceVersion && (HasPatch(p) ==> next.value.version + 1 != p.surfaceVersion as int)
  }

  /** Towards a client that shows anything else of the name, a pane can be announced if the version numbers do not
      clash; at the same version it cannot, unless the views are equal. */
  lemma OtherSendable(p: Pane, next: View)
    requires p.id != "" && Coherent(p.screen)
    ensures Sized(p.screen, |p.screen.lines|)
    ensures NoClash(p, Some(next)) ==> (Sendable(p, Some(next)) <==> LinesFit(p))
    ensures next.version == p.surfaceVersion ==> (Sendable(p, Some(next)) <==> LinesFit(p) && next == ViewOf(p))
  {
    hide ApplyPatch, PatchFrame, FromSnapshot, SnapshotFrame, ViewOf, StylesInTable, Coherent;
    CoherentSized(p);
    if LinesFit(p) {
      BundleGoal(p, 0, 0);
    }
  }

  /** In every run the condition on announcing is exact, whatever the writer still has to do before. */
  lemma AnnouncingIsExact(
      s: State, cap: nat, run: seq<Action>, id: string, known: map<string, u64>, mirrors: map<string, View>)
    requires Initial(s) && IsRun(s, cap, run) && id in After(s, cap, run).daemon.panes
    requires NextView(id, known, mirrors) == Meeting(After(s, cap, run).link, id)
    requires id in known ==> id in mirrors && mirrors[id].version == known[id]
    ensures var p := After(s, cap, run).daemon.panes[id];
            && Sized(p.screen, |p.screen.lines|)
            && (Sendable(p, Meeting(After(s, cap, run).link, id))
                <==> FromSnapshot(SnapshotFrame(p)) == Ok(ViewOf(p)) && Shows(p, known, mirrors))
  {
    hide Sendable, PatchFails, LinkRight, ViewOf, Shows, Meeting, FromSnapshot;
    InitialInv(s);
    RunKeepsInv(s, cap, run);
    var t := After(s, cap, run);
    assert PaneRight(t.daemon.panes[id], id, t.daemon.history, t.daemon.stale);
    if id in known {
      MeetingValid(t, id);
    }
    SendableIsExact(t.daemon.panes[id], known, mirrors);
  }

  lemma MeetingValid(s: State, id: string)
    requires Inv(s) && Meeting(s.link, id).Some?
    ensures MirrorValid(Meeting(s.link, id).value) && Meeting(s.link, id).value.paneId == id
    ensures Meeting(s.link, id).value in s.daemon.past
  {
    hide PanesRight, HistoryPast, ToldRight, KnownRight, PublishedRight, AnnouncedRight, End;
    EndIsRight(s.link.mirrors, s.link.wire, s.daemon.past);
    if id in s.link.reading {
      assert SignalRight(s.link.reading[id], id, s.daemon.past);
    }
  }

  // ---------- names used once ----------

  /** What the link still holds of a name, and will end at, are views of its present pane. */
  ghost predicate HoldsOwn(h: map<Moment, View>, l: Link, id: string) {
    && (Meeting(l, id).Some? ==> InLife(Meeting(l, id).value, h))
    && (Final(l, id).Some? ==> InLife(Final(l, id).value, h))
  }

  ghost predicate Own(s: State) {
    forall id | id in s.daemon.panes ::
      HoldsOwn(s.daemon.history, s.link, id) && (id in s.daemon.announced ==> id in s.daemon.told)
  }

  /** No pane is created under a name that was announced before. */
  predicate NewName(d: Daemon, a: Action) {
    a.Create? ==> a.id !in d.announced
  }

  // Pane changes add moments of the same life.
  lemma ChangeKeepsOwn(s: State, p: Pane, stale: set<string>)
    requires Own(s) && p.id in s.daemon.panes && Sized(p.screen, |p.screen.lines|)
    requires var m := Moment(p.id, p.surfaceVersion);
             m in s.daemon.history ==> s.daemon.history[m] == ViewOf(p)
    ensures Own(s.(daemon := WithChanged(s.daemon, p, stale)))
  {
    hide Meeting, Final, ViewOf;
    forall id | id in s.daemon.panes
      ensures HoldsOwn(WithChanged(s.daemon, p, stale).history, s.link, id)
    {
      assert HoldsOwn(s.daemon.history, s.link, id);
    }
  }

  lemma CreateKeepsOwn(s: State, id: string, p: Pane, stale: set<string>)
    requires Inv(s) && Own(s) && id !in s.daemon.announced && p.id == id && Sized(p.screen, |p.screen.lines|)
    ensures Own(s.(daemon := WithChanged(Renewed(s.daemon, id), p, stale)))
  {
    hide Meeting, Final, ViewOf, LinkRight, PanesRight, ToldRight;
    var e := WithChanged(Renewed(s.daemon, id), p, stale);
    UnannouncedIsUnheld(s.link, s.daemon.past, s.daemon.announced, id);
    forall other | other in s.daemon.panes && other != id ensures HoldsOwn(e.history, s.link, other) {
      assert HoldsOwn(s.daemon.history, s.link, other);
      HeldNamed(s, other);
    }
  }

  lemma HeldNamed(s: State, id: string)
    requires Inv(s)
    ensures Meeting(s.link, id).Some? ==> Meeting(s.link, id).value.paneId == id
    ensures Final(s.link, id).Some? ==> Final(s.link, id).value.paneId == id
  {
    hide PanesRight, HistoryPast, ToldRight, KnownRight, PublishedRight, AnnouncedRight, End;
    EndIsRight(s.link.mirrors, s.link.wire, s.daemon.past);
    if id in s.link.reading {
      assert SignalRight(s.link.reading[id], id, s.daemon.past);
    }
    if id in s.link.published {
      assert SignalRight(s.link.published[id], id, s.daemon.past);
    }
  }

  lemma AnnounceKeepsOwn(s: State, cap: nat, id: string, n: nat, m: nat)
    requires Inv(s) && Own(s) && Enabled(s, Announce(id, n, m))
    ensures Own(Announced(s, cap, s.daemon.panes[id], n, m))
  {
    hide LinkRight, ContentRight, HistoryRight, Meets, Meeting, Final, Signalled, Bundle, AllStylesKnown, ToldRight;
    var d := s.daemon;
    var p := d.panes[id];
    assert PaneRight(p, id, d.history, d.stale);
    if !IsAnnounced(p, d.announced) {
      var b := Bundle(p, n, m);
      BundleRight(p, id, d, n, m);
      BundleNames(p, n, m);
      ViewIds(p);
      if Meeting(s.link, id).Some? {
        SizesIrrelevant(p, Meeting(s.link, id).value, n, m);
      }
      SignalKeepsLink(s.link, d.past, d.announced, cap, b);
      var t := SignalledBy(s, cap, b);
      forall other | other in d.panes
        ensures HoldsOwn(t.daemon.history, t.link, other) && (other in t.daemon.announced ==> other in t.daemon.told)
      {
        assert HoldsOwn(d.history, s.link, other);
      }
    }
  }

  lemma LinkStepKeepsOwn(s: State, cap: nat, a: Action)
    requires Inv(s) && Own(s) && PanesSized(s.daemon) && Enabled(s, a) && IsClientAction(a)
    ensures Own(Do(s, cap, a))
  {
    hide LinkRight, PanesRight, HistoryPast, ToldRight, Final, Meeting, Written, Consumed;
    var d := s.daemon;
    match a
    case ReadChannel => ReadKeepsLink(s.link, d.past, d.announced);
    case WriteOne(id) => WriteKeepsLink(s.link, d.past, d.announced, id);
    case Receive => ConsumeKeepsLink(s.link, d.past, d.announced);
    forall id | id in d.panes ensures HoldsOwn(d.history, Do(s, cap, a).link, id) {
      assert HoldsOwn(d.history, s.link, id);
    }
  }

  lemma OutputKeepsOwn(s: State, id: string, u: Update)
    requires Inv(s) && Own(s) && Enabled(s, Output(id, u))
    ensures var p := s.daemon.panes[id];
            Own(s.(daemon := WithChanged(s.daemon, Updated(p, u, false), StaleAfter(p, u, s.daemon.stale))))
  {
    hide LinkRight, ContentRight, Updated, SurfaceChanged, ToldRight, Own, ViewOf, StaleAfter;
    var p := s.daemon.panes[id];
    assert PaneRight(p, id, s.daemon.history, s.daemon.stale);
    LinkHistory(s);
    UpdatedVersion(p, u);
    if !SurfaceChanged(p, u, false) {
      QuietOutputKeepsPane(p, u, s.daemon.history, s.daemon.stale);
    }
    ChangeKeepsOwn(s, Updated(p, u, false), StaleAfter(p, u, s.daemon.stale));
  }

  lemma UpdatedVersion(p: Pane, u: Update)
    ensures SurfaceChanged(p, u, false) ==> Updated(p, u, false).surfaceVersion == SatInc(p.surfaceVersion)
    ensures Updated(p, u, false).id == p.id
  {
  }

  lemma NextVersionIsNew(s: State, id: string, q: Pane, stale: set<string>)
    requires Inv(s) && Own(s) && id in s.daemon.panes && q.id == id && Sized(q.screen, |q.screen.lines|)
    requires q.surfaceVersion > s.daemon.panes[id].surfaceVersion
    ensures Own(s.(daemon := WithChanged(s.daemon, q, stale)))
  {
    hide LinkRight, ContentRight, ToldRight, Own, ViewOf;
    assert PaneRight(s.daemon.panes[id], id, s.daemon.history, s.daemon.stale);
    ChangeKeepsOwn(s, q, stale);
  }

  /** As long as names are used once, what the client holds of a pane's name is of that pane. */
  lemma StepKeepsOwn(s: State, cap: nat, a: Action)
    requires Inv(s) && Own(s) && PanesSized(s.daemon) && Enabled(s, a) && NewName(s.daemon, a)
    ensures Own(Do(s, cap, a))
  {
    hide Inv, Own, Updated, WithChanged, Announced, Written, Consumed, Sendable, Renewed, Shrunk, NewPane, ViewOf;
    hide SurfaceChanged, StaleAfter;
    var d := s.daemon;
    match a
    case Output(id, u) => OutputKeepsOwn(s, id, u);
    case Resize(id, cols, rows, u) =>
      PaneNamed(s, id);
      ResizedVersion(d.panes[id], cols, rows, u);
      NextVersionIsNew(s, id, Updated(d.panes[id].(cols := cols, rows := rows), u, true), d.stale - {id});
    case Shrink(id, cols, rows) =>
      PaneNamed(s, id);
      ShrunkVersion(d.panes[id], cols, rows);
      NextVersionIsNew(s, id, Shrunk(d.panes[id], cols, rows), d.stale - {id});
    case Create(id, host, cols, rows) =>
      NewPaneNamed(id, host, cols, rows);
      CreateKeepsInv(s, id, host, cols, rows);
      CreateKeepsOwn(s, id, NewPane(id, host, cols, rows), d.stale - {id});
    case Close(id) => CloseKeepsOwn(s, id);
    case Announce(id, n, m) => AnnounceKeepsOwn(s, cap, id, n, m);
    case _ => LinkStepKeepsOwn(s, cap, a);
  }

  lemma PaneNamed(s: State, id: string)
    requires Inv(s) && id in s.daemon.panes
    ensures s.daemon.panes[id].id == id && Sized(s.daemon.panes[id].screen, |s.daemon.panes[id].screen.lines|)
  {
    hide LinkRight, ToldRight, HistoryPast;
    assert PaneRight(s.daemon.panes[id], id, s.daemon.history, s.daemon.stale);
  }

  lemma ResizedVersion(p: Pane, cols: u32, rows: u32, u: Update)
    requires p.surfaceVersion < U64_MAX
    ensures var q := Updated(p.(cols := cols, rows := rows), u, true);
            q.id == p.id && q.surfaceVersion == p.surfaceVersion + 1 && Sized(q.screen, |q.screen.lines|)
  {
  }

  lemma ShrunkVersion(p: Pane, cols: u32, rows: u32)
    requires p.surfaceVersion < U64_MAX
    ensures var q := Shrunk(p, cols, rows);
            q.id == p.id && q.surfaceVersion == p.surfaceVersion + 1 && q.screen == p.screen
  {
  }

  lemma CloseKeepsOwn(s: State, id: string)
    requires Own(s)
    ensures Own(s.(daemon := s.daemon.(panes := s.daemon.panes - {id})))
  {
    hide HoldsOwn;
  }

  ghost predicate NewNames(s: State, cap: nat, run: seq<Action>)
    requires IsRun(s, cap, run)
    decreases |run|
  {
    run != [] ==> NewName(s.daemon, run[0]) && NewNames(Do(s, cap, run[0]), cap, run[1..])
  }

  lemma {:induction false} RunKeepsOwn(s: State, cap: nat, run: seq<Action>)
    requires Inv(s) && Own(s) && IsRun(s, cap, run) && NewNames(s, cap, run)
    ensures Own(After(s, cap, run)) && Inv(After(s, cap, run))
    decreases |run|
  {
    hide Inv, Own, Enabled, Do;
    if run != [] {
      StepKeepsInv(s, cap, run[0]);
      StepKeepsOwn(s, cap, run[0]);
      RunKeepsOwn(Do(s, cap, run[0]), cap, run[1..]);
    }
  }

  /** When names are used once, a pane can be announced exactly when its lines fit, its styles are known and the
      patch the writer would send is not stale; and once the client has caught up, the mirror of every pane
      announced at its present version is its view. */
  lemma NewNamesAreSafe(s: State, id: string)
    requires Inv(s) && Own(s) && id in s.daemon.panes
    ensures var p := s.daemon.panes[id];
            var next := Meeting(s.link, id);
            && Sized(p.screen, |p.screen.lines|)
            && (Sendable(p, next)
                <==> LinesFit(p)
                     && (next.Some? && HasPatch(p) && next.value.version + 1 == p.surfaceVersion as int
                         ==> id !in s.daemon.stale))
            && (CaughtUp(s.link) && IsAnnounced(p, s.daemon.announced) ==>
                  id in s.link.mirrors && s.link.mirrors[id] == ViewOf(p))
  {
    hide LinkRight, ContentRight, Meeting, Final, Sendable, LinesFit, ViewOf, ToldRight;
    var d := s.daemon;
    assert PaneRight(d.panes[id], id, d.history, d.stale);
    assert HoldsOwn(d.history, s.link, id);
    HeldNamed(s, id);
    OwnSendable(d.panes[id], id, d.history, d.stale, Meeting(s.link, id));
    if CaughtUp(s.link) {
      SettledMirrorsAreCurrent(s);
    }
  }

  // ---------- the byte budget ----------

  /** The snapshots announced in a run, each pane by its last announcement, closed panes included. */
  ghost function LastSnapshots(s: State, cap: nat, run: seq<Action>, before: map<string, Signal>): map<string, Signal>
    requires IsRun(s, cap, run)
    decreases |run|
  {
    if run == [] then before
    else LastSnapshots(Do(s, cap, run[0]), cap, run[1..], WithSnapshot(s, run[0], before))
  }

  ghost function WithSnapshot(s: State, a: Action, before: map<string, Signal>): map<string, Signal>
    requires Enabled(s, a)
  {
    if a.Announce? && !IsAnnounced(s.daemon.panes[a.id], s.daemon.announced)
    then var b := Bundle(s.daemon.panes[a.id], a.snapshotSize, a.patchSize); before[b.paneId := Bare(b)]
    else before
  }

  // The published set fits, and the pending one holds the last snapshots.
  ghost predicate BudgetRight(l: Link, cap: nat, snapshots: map<string, Signal>) {
    SetBytes(l.published) <= cap && WithoutPatches(l.latest) == snapshots
  }

  lemma StepKeepsBudget(s: State, cap: nat, a: Action, snapshots: map<string, Signal>)
    requires PanesSized(s.daemon) && Enabled(s, a) && BudgetRight(s.link, cap, snapshots)
    ensures BudgetRight(Do(s, cap, a).link, cap, WithSnapshot(s, a, snapshots))
  {
    hide WithChanged, Updated, StaleAfter, Shrunk, NewPane, Renewed, FrameFor, Took, Sendable, SetBytes, NextLatest;
    hide WithoutPatches, SurfaceChanged, Bare, Bundle;
    if a.Announce? && !IsAnnounced(s.daemon.panes[a.id], s.daemon.announced) {
      SignalFits(s.link.latest, cap, Bundle(s.daemon.panes[a.id], a.snapshotSize, a.patchSize));
    }
  }

  lemma {:induction false} RunKeepsBudget(s: State, cap: nat, run: seq<Action>, snapshots: map<string, Signal>)
    requires IsRun(s, cap, run) && BudgetRight(s.link, cap, snapshots)
    ensures BudgetRight(After(s, cap, run).link, cap, LastSnapshots(s, cap, run, snapshots))
    decreases |run|
  {
    hide BudgetRight, Do, Enabled, WithSnapshot;
    if run != [] {
      StepKeepsBudget(s, cap, run[0], snapshots);
      RunKeepsBudget(Do(s, cap, run[0]), cap, run[1..], WithSnapshot(s, run[0], snapshots));
    }
  }

  /** In every run each published set is within the cap, and an announcement stops the channel if and only if the
      snapshots of all panes announced so far exceed it, each by its last announcement and closed panes included. */
  lemma AnnouncementStops(s: State, cap: nat, run: seq<Action>, id: string, n: nat, m: nat)
    requires Initial(s) && IsRun(s, cap, run)
    ensures SetBytes(After(s, cap, run).link.published) <= cap
    ensures var t := After(s, cap, run);
            PanesSized(t.daemon) && Enabled(t, Announce(id, n, m))
            && !IsAnnounced(t.daemon.panes[id], t.daemon.announced) ==>
              (Do(t, cap, Announce(id, n, m)).link.stopped
               <==> SetBytes(WithSnapshot(t, Announce(id, n, m), LastSnapshots(s, cap, run, map[]))) > cap)
  {
    hide Sendable, NextLatest, Bare, Bundle;
    assert WithoutPatches(map[]) == map[];
    RunKeepsBudget(s, cap, run, map[]);
    var t := After(s, cap, run);
    if PanesSized(t.daemon) && Enabled(t, Announce(id, n, m)) && !IsAnnounced(t.daemon.panes[id], t.daemon.announced) {
      SignalFits(t.link.latest, cap, Bundle(t.daemon.panes[id], n, m));
    }
  }

  // ---------- patches are kept and sent ----------

  /** The bundles announced in a run, each pane by its last announcement, with its patch. */
  ghost function WithBundle(s: State, a: Action, before: map<string, Signal>): map<string, Signal>
    requires Enabled(s, a)
  {
    if a.Announce? && !IsAnnounced(s.daemon.panes[a.id], s.daemon.announced)
    then before[s.daemon.panes[a.id].id := Bundle(s.daemon.panes[a.id], a.snapshotSize, a.patchSize)]
    else before
  }

  /** At every moment of the run the last bundles of all panes fit the cap, patches included. */
  ghost predicate RoomForPatches(s: State, cap: nat, run: seq<Action>, bundles: map<string, Signal>)
    requires IsRun(s, cap, run)
    decreases |run|
  {
    && SetBytes(bundles) <= cap
    && (run != [] ==> RoomForPatches(Do(s, cap, run[0]), cap, run[1..], WithBundle(s, run[0], bundles)))
  }

  ghost function LastBundles(s: State, cap: nat, run: seq<Action>, before: map<string, Signal>): map<string, Signal>
    requires IsRun(s, cap, run)
    decreases |run|
  {
    if run == [] then before
    else LastBundles(Do(s, cap, run[0]), cap, run[1..], WithBundle(s, run[0], before))
  }

  ghost predicate IsBundle(s: Signal, id: string) {
    exists p: Pane, n: nat, m: nat :: p.id == id && s == Bundle(p, n, m)
  }

  ghost predicate AllBundles(signals: map<string, Signal>) {
    forall id | id in signals :: IsBundle(signals[id], id)
  }

  // Nothing was dropped: what is pending are the bundles as they were announced.
  ghost predicate KeepsBundles(l: Link, bundles: map<string, Signal>) {
    && !l.stopped && l.latest == bundles && l.published == bundles
    && AllBundles(bundles) && AllBundles(l.reading)
  }

  lemma RoomyBundle(bundles: map<string, Signal>, cap: nat, p: Pane, n: nat, m: nat)
    requires AllBundles(bundles) && SetBytes(bundles[p.id := Bundle(p, n, m)]) <= cap
    ensures NextLatest(bundles, cap, Bundle(p, n, m)) == bundles[p.id := Bundle(p, n, m)]
    ensures AllBundles(bundles[p.id := Bundle(p, n, m)])
  {
    hide SnapshotFrame, PatchFrame, SetBytes;
    var b := Bundle(p, n, m);
    if p.id in bundles {
      var q: Pane, i: nat, j: nat :| q.id == p.id && bundles[p.id] == Bundle(q, i, j);
    }
    assert Inserted(bundles, b) == bundles[p.id := b];
    assert IsBundle(b, p.id);
  }

  lemma StepKeepsBundles(s: State, cap: nat, a: Action, bundles: map<string, Signal>)
    requires PanesSized(s.daemon) && Enabled(s, a) && KeepsBundles(s.link, bundles)
    requires SetBytes(WithBundle(s, a, bundles)) <= cap
    ensures KeepsBundles(Do(s, cap, a).link, WithBundle(s, a, bundles))
  {
    hide WithChanged, Updated, StaleAfter, Shrunk, NewPane, Renewed, FrameFor, Took, Sendable, SetBytes, NextLatest;
    hide SurfaceChanged, Bundle, IsBundle;
    if a.Announce? && !IsAnnounced(s.daemon.panes[a.id], s.daemon.announced) {
      RoomyBundle(bundles, cap, s.daemon.panes[a.id], a.snapshotSize, a.patchSize);
    }
  }

  /** While the budget leaves room for patches, no announcement loses its patch and the channel never stops: what is
      pending, published and being written are bundles as they were announced. */
  lemma {:induction false} RunKeepsBundles(s: State, cap: nat, run: seq<Action>, bundles: map<string, Signal>)
    requires IsRun(s, cap, run) && KeepsBundles(s.link, bundles) && RoomForPatches(s, cap, run, bundles)
    ensures KeepsBundles(After(s, cap, run).link, LastBundles(s, cap, run, bundles))
    decreases |run|
  {
    hide KeepsBundles, Do, Enabled, WithBundle, SetBytes;
    if run != [] {
      RoomNext(s, cap, run, bundles);
      StepKeepsBundles(s, cap, run[0], bundles);
      RunKeepsBundles(Do(s, cap, run[0]), cap, run[1..], WithBundle(s, run[0], bundles));
    }
  }

  lemma RoomNext(s: State, cap: nat, run: seq<Action>, bundles: map<string, Signal>)
    requires IsRun(s, cap, run) && run != [] && RoomForPatches(s, cap, run, bundles)
    ensures SetBytes(WithBundle(s, run[0], bundles)) <= cap
  {
    hide Do, Enabled, WithBundle, SetBytes;
  }

  /** What a client with the given versions is sent of a pane: the patch if it is at the version before and the last
      change needs no full refresh, else the snapshot. */
  function FrameDue(p: Pane, known: map<string, u64>): Frame {
    if p.patchKind != FullRefreshRequired && p.id in known && known[p.id] as int + 1 == p.surfaceVersion as int
    then PatchFrame(p, known[p.id])
    else SnapshotFrame(p)
  }

  lemma BundleWritten(l: Link, p: Pane, n: nat, m: nat)
    requires p.id in l.reading && l.reading[p.id] == Bundle(p, n, m)
    requires !(p.id in l.known && l.known[p.id] == p.surfaceVersion)
    ensures Written(l, p.id).wire == l.wire + [FrameDue(p, l.known)]
  {
    hide PatchFrame, SnapshotFrame;
  }

  // An announcement, and the writer's turn on it.
  ghost predicate IsSent(t: State, cap: nat, id: string, n: nat, m: nat, f: Frame) {
    var steps := [Announce(id, n, m), ReadChannel, WriteOne(id)];
    IsRun(t, cap, steps) && After(t, cap, steps).link.wire == t.link.wire + [f]
  }

  /** When nothing was dropped and there is room for its bundle, a pane that is announced is sent as is due. */
  lemma AnnouncedIsSent(t: State, cap: nat, bundles: map<string, Signal>, id: string, n: nat, m: nat)
    requires Inv(t) && KeepsBundles(t.link, bundles) && t.link.reading == map[] && id in t.daemon.panes
    requires Enabled(t, Announce(id, n, m)) && !IsAnnounced(t.daemon.panes[id], t.daemon.announced)
    requires !(id in t.link.known && t.link.known[id] == t.daemon.panes[id].surfaceVersion)
    requires SetBytes(bundles[id := Bundle(t.daemon.panes[id], n, m)]) <= cap
    ensures IsSent(t, cap, id, n, m, FrameDue(t.daemon.panes[id], t.link.known))
  {
    hide Sendable, Bundle, FrameDue, SetBytes, NextLatest, Written, PanesSized, LinkRight, PanesRight, AllBundles;
    hide HistoryPast, ToldRight, Updated, WithChanged;
    var p := t.daemon.panes[id];
    InvSizes(t);
    PaneNamed(t, id);
    RoomyBundle(bundles, cap, p, n, m);
    BundleNames(p, n, m);
    var t1 := Do(t, cap, Announce(id, n, m));
    assert t1.link == Published(t.link, bundles[id := Bundle(p, n, m)]);
    assert t1.daemon.panes == t.daemon.panes;
    SamePanesSized(t.daemon, t1.daemon);
    var t2 := Do(t1, cap, ReadChannel);
    BundleWritten(t2.link, p, n, m);
    ThreeSteps(t, t1, t2, cap, Announce(id, n, m), ReadChannel, WriteOne(id));
  }

  lemma SamePanesSized(d: Daemon, e: Daemon)
    requires PanesSized(d) && e.panes == d.panes
    ensures PanesSized(e)
  {
  }

  lemma ThreeSteps(t: State, t1: State, t2: State, cap: nat, a: Action, b: Action, c: Action)
    requires PanesSized(t.daemon) && Enabled(t, a) && t1 == Do(t, cap, a)
    requires PanesSized(t1.daemon) && Enabled(t1, b) && t2 == Do(t1, cap, b)
    requires PanesSized(t2.daemon) && Enabled(t2, c)
    ensures IsRun(t, cap, [a, b, c]) && After(t, cap, [a, b, c]) == Do(t2, cap, c)
  {
    hide PanesSized, Enabled, Do;
    RunFromStep(t2, cap, c, []);
    RunFromStep(t1, cap, b, [c]);
    RunFromStep(t, cap, a, [b, c]);
    assert [c] + [] == [c] && [b] + [c] == [b, c] && [a] + [b, c] == [a, b, c];
  }

  /** In every run with room for patches, a client at the version before is sent a pane's patch, unless the last
      change needs a full refresh; any other client is sent the snapshot. */
  lemma AdjacentClientIsPatched(s: State, cap: nat, run: seq<Action>, id: string, n: nat, m: nat)
    requires Initial(s) && IsRun(s, cap, run) && RoomForPatches(s, cap, run, map[])
    ensures var t := After(s, cap, run);
            && id in t.daemon.panes && Enabled(t, Announce(id, n, m)) && t.link.reading == map[]
            && !IsAnnounced(t.daemon.panes[id], t.daemon.announced)
            && !(id in t.link.known && t.link.known[id] == t.daemon.panes[id].surfaceVersion)
            && SetBytes(LastBundles(s, cap, run, map[])[id := Bundle(t.daemon.panes[id], n, m)]) <= cap
            ==> IsSent(t, cap, id, n, m, FrameDue(t.daemon.panes[id], t.link.known))
  {
    hide Enabled, Bundle, FrameDue, SetBytes, LastBundles, RoomForPatches, IsSent, KeepsBundles, Inv, IsRun, After;
    NothingYet(s);
    RunKeepsBundles(s, cap, run, map[]);
    InitialInv(s);
    RunKeepsInv(s, cap, run);
    var t := After(s, cap, run);
    if id in t.daemon.panes && Enabled(t, Announce(id, n, m)) && t.link.reading == map[]
       && !IsAnnounced(t.daemon.panes[id], t.daemon.announced)
       && !(id in t.link.known && t.link.known[id] == t.daemon.panes[id].surfaceVersion)
       && SetBytes(LastBundles(s, cap, run, map[])[id := Bundle(t.daemon.panes[id], n, m)]) <= cap
    {
      AnnouncedIsSent(t, cap, LastBundles(s, cap, run, map[]), id, n, m);
    }
  }

  lemma NothingYet(s: State)
    requires Initial(s)
    ensures KeepsBundles(s.link, map[])
  {
  }

  // ---------- catching up ----------

  /** From any reachable state the client side alone reaches such a state. */
  lemma {:induction false} ClientSettles(s: State, cap: nat) returns (run: seq<Action>)
    requires Inv(s)
    ensures IsRun(s, cap, run) && (forall a | a in run :: IsClientAction(a))
    ensures var t := After(s, cap, run); Inv(t) && CaughtUp(t.link) && t.daemon == s.daemon
    decreases s.link.unread, |s.link.reading|, |s.link.wire|
  {
    InvSizes(s);
    if s.link.wire != [] {
      run := SettleFrom(s, cap, Receive);
    } else if s.link.reading != map[] {
      var id :| id in s.link.reading;
      run := SettleFrom(s, cap, WriteOne(id));
    } else if s.link.unread {
      run := SettleFrom(s, cap, ReadChannel);
    } else {
      run := [];
    }
  }

  // Frames still to be written and received, channel read first.
  ghost predicate Closer(a: Link, b: Link) {
    || (!a.unread && b.unread)
    || (a.unread == b.unread && |a.reading| < |b.reading|)
    || (a.unread == b.unread && |a.reading| == |b.reading| && |a.wire| < |b.wire|)
  }

  lemma ClientStepIsCloser(s: State, cap: nat, a: Action)
    requires PanesSized(s.daemon) && Enabled(s, a) && IsClientAction(a)
    ensures Do(s, cap, a).daemon == s.daemon && Closer(Do(s, cap, a).link, s.link)
  {
    hide FrameFor, WantsFrame, Received, WithChanged, Announced, Sendable, StaleAfter, NewPane, Shrunk, Updated;
    hide Sized, SurfaceChanged;
  }

  lemma RunFromStep(s: State, cap: nat, a: Action, rest: seq<Action>)
    requires PanesSized(s.daemon) && Enabled(s, a) && IsRun(Do(s, cap, a), cap, rest)
    ensures IsRun(s, cap, [a] + rest) && After(s, cap, [a] + rest) == After(Do(s, cap, a), cap, rest)
  {
    assert ([a] + rest)[1..] == rest;
  }

  lemma {:induction false} SettleFrom(s: State, cap: nat, a: Action) returns (run: seq<Action>)
    requires Inv(s) && PanesSized(s.daemon) && Enabled(s, a) && IsClientAction(a)
    ensures IsRun(s, cap, run) && (forall b | b in run :: IsClientAction(b))
    ensures var t := After(s, cap, run); Inv(t) && CaughtUp(t.link) && t.daemon == s.daemon
    decreases s.link.unread, |s.link.reading|, |s.link.wire|, 0
  {
    StepKeepsInv(s, cap, a);
    ClientStepIsCloser(s, cap, a);
    var rest := ClientSettles(Do(s, cap, a), cap);
    RunFromStep(s, cap, a, rest);
    run := [a] + rest;
  }
}
