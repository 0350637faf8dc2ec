/** One client's side of delivery, whatever is signalled to it: the latest-wins channel, the writer that chooses
    a patch or a snapshot by version numbers, the wire and the mirrors. A version number alone does not say which
    pane of a name it means, so the invariant speaks of views. */
module ClientLink {
  import opened Types
  import opened Mirror
  import opened Channel

  /** The channel (`latest` pending, `published` readable), the writer's remaining signals and known
      versions, the frames on the wire and the client's mirrors. */
  datatype Link = Link(
    latest: map<string, Signal>, published: map<string, Signal>, unread: bool, stopped: bool,
    reading: map<string, Signal>, known: map<string, u64>, wire: seq<Frame>, mirrors: map<string, View>)

  // ---------- the steps ----------

  function Published(l: Link, latest: map<string, Signal>): Link {
    l.(latest := latest, published := latest, unread := true)
  }

  /** What a signal does to the channel; a failed one ends the serving loop. */
  ghost function Signalled(l: Link, cap: nat, b: Signal): Link {
    var latest := NextLatest(l.latest, cap, b);
    if SetBytes(latest) <= cap then Published(l, latest) else l.(latest := latest, stopped := true)
  }

  function ReadAll(l: Link): Link {
    l.(reading := l.published, unread := false)
  }

  // The daemon's writer, which sends bundled frames only.
  function Written(l: Link, id: string): Link
    requires id in l.reading
  {
    var rest := l.(reading := l.reading - {id});
    if WantsFrame(BundledOnly(), l.known, l.reading[id])
    then rest.(wire := l.wire + [FrameFor(BundledOnly(), l.known, l.reading[id]).value],
               known := l.known[id := l.reading[id].version])
    else rest
  }

  /** `apply_surface_update_styled`: a first frame has to be a snapshot. */
  ghost function Received(mirrors: map<string, View>, f: Frame): Option<map<string, View>> {
    var r :=
      if f.paneId in mirrors && MirrorValid(mirrors[f.paneId]) then ApplyFrame(mirrors[f.paneId], f)
      else if f.Snapshot? then FromSnapshot(f)
      else Err(PaneMismatch);
    if r.Ok? then Some(mirrors[f.paneId := r.value]) else None
  }

  // The mirrors after a frame; a refused one changes nothing.
  ghost function Took(mirrors: map<string, View>, f: Frame): map<string, View> {
    var r := Received(mirrors, f);
    if r.Some? then r.value else mirrors
  }

  ghost function Consumed(l: Link): Link
    requires l.wire != []
  {
    l.(mirrors := Took(l.mirrors, l.wire[0]), wire := l.wire[1..])
  }

  // ---------- what the client is going to show ----------

  /** The mirrors once the wire is consumed. */
  ghost function End(mirrors: map<string, View>, wire: seq<Frame>): map<string, View>
    decreases |wire|
  {
    if wire == [] then mirrors else End(Took(mirrors, wire[0]), wire[1..])
  }

  ghost function EndOf(l: Link): map<string, View> {
    End(l.mirrors, l.wire)
  }

  predicate Whole(s: Signal) {
    s.snapshot.Some? && s.snapshot.value.frame.Snapshot? && FromSnapshot(s.snapshot.value.frame).Ok?
  }

  /** What a signal is about: the view its snapshot shows. */
  function Goal(s: Signal): View
    requires Whole(s)
  {
    FromSnapshot(s.snapshot.value.frame).value
  }

  /** Every view the panes of any name ever had. */
  ghost predicate PastRight(past: set<View>) {
    forall v | v in past :: MirrorValid(v)
  }

  ghost predicate MirrorsRight(mirrors: map<string, View>, past: set<View>) {
    forall id | id in mirrors :: mirrors[id] in past && mirrors[id].paneId == id
  }

  /** The client takes every frame on the wire, and shows only views of the past on the way. */
  ghost predicate Delivers(mirrors: map<string, View>, wire: seq<Frame>, past: set<View>)
    decreases |wire|
  {
    && MirrorsRight(mirrors, past)
    && (wire != [] ==> Received(mirrors, wire[0]).Some? && Delivers(Took(mirrors, wire[0]), wire[1..], past))
  }

  ghost predicate SignalRight(s: Signal, id: string, past: set<View>) {
    && s.paneId == id && Whole(s) && Goal(s) in past && Goal(s).paneId == id && Goal(s).version == s.version
    && (s.patch.Some? ==>
          var f := s.patch.value.encoded.frame;
          f.Patch? && f.paneId == id && f.base == s.patch.value.base)
  }

  ghost predicate SignalsRight(signals: map<string, Signal>, past: set<View>) {
    forall id | id in signals :: SignalRight(signals[id], id, past)
  }

  // The writer would answer the signal with its patch to a client that knows the version.
  predicate UsesPatch(known: u64, s: Signal) {
    !s.snapshotRequired && s.patch.Some? && s.patch.value.base == known && known as int + 1 == s.version as int
  }

  /** A client showing `v` is led to the signal's view: a version the writer would skip is that view, and a patch
      the writer would send makes it that view. A snapshot always does. */
  ghost predicate Meets(v: View, s: Signal)
    requires Whole(s)
  {
    && (v.version == s.version ==> v == Goal(s))
    && (UsesPatch(v.version, s) ==>
          && MirrorValid(v) && s.patch.value.encoded.frame.Patch?
          && ApplyPatch(v, s.patch.value.encoded.frame) == Ok(Goal(s)))
  }

  /** What the client shows of a pane when the writer comes to the pane's next signal, as far as the writer knows. */
  ghost function Meeting(l: Link, id: string): Option<View> {
    if id in l.reading then (if Whole(l.reading[id]) then Some(Goal(l.reading[id])) else None)
    else if id in l.known && id in EndOf(l) then Some(EndOf(l)[id])
    else None
  }

  /** What the client shows of a pane once it has caught up. */
  ghost function Final(l: Link, id: string): Option<View> {
    if id in l.published then (if Whole(l.published[id]) then Some(Goal(l.published[id])) else None)
    else if id in l.known && id in EndOf(l) then Some(EndOf(l)[id])
    else None
  }

  // ---------- the invariant ----------

  ghost predicate KnownRight(known: map<string, u64>, end: map<string, View>) {
    forall id | id in known :: id in end && end[id].version == known[id]
  }

  // The writer's remaining signals.
  ghost predicate ReadingRight(l: Link, end: map<string, View>) {
    forall id | id in l.reading ::
      && id in l.published && Whole(l.reading[id])
      && (id in l.known && id in end ==> Meets(end[id], l.reading[id]))
      && (!l.unread ==> l.reading[id] == l.published[id])
  }

  // What is published was written, is being written, or will be met.
  ghost predicate PublishedRight(l: Link, end: map<string, View>) {
    forall id | id in l.published ::
      && Whole(l.published[id])
      && (l.unread && Meeting(l, id).Some? ==> Meets(Meeting(l, id).value, l.published[id]))
      && (!l.unread && id !in l.reading ==> id in l.known && id in end && end[id] == Goal(l.published[id]))
  }

  /** The daemon's list of announced versions says what the client ends at. */
  predicate AnnouncedRight(l: Link, announced: map<string, u64>) {
    && (forall id | id in l.published :: id in announced && announced[id] == l.published[id].version)
    && (forall id | id in announced :: id in l.published || (id in l.known && l.known[id] == announced[id]))
    && (forall id | id in l.known :: id in announced)
  }

  ghost predicate LinkRight(l: Link, past: set<View>, announced: map<string, u64>) {
    && PastRight(past) && SignalsRight(l.published, past) && SignalsRight(l.reading, past)
    && Delivers(l.mirrors, l.wire, past)
    && KnownRight(l.known, EndOf(l)) && ReadingRight(l, EndOf(l)) && PublishedRight(l, EndOf(l))
    && (!l.stopped ==> l.latest == l.published)
    && AnnouncedRight(l, announced)
  }

  // ---------- the past grows ----------

  lemma {:induction false} DeliversInMore(
      mirrors: map<string, View>, wire: seq<Frame>, past: set<View>, more: set<View>)
    requires Delivers(mirrors, wire, past) && past <= more
    ensures Delivers(mirrors, wire, more)
    decreases |wire|
  {
    if wire != [] {
      DeliversInMore(Took(mirrors, wire[0]), wire[1..], past, more);
    }
  }

  lemma PastGrows(l: Link, past: set<View>, more: set<View>, announced: map<string, u64>)
    requires LinkRight(l, past, announced) && past <= more && PastRight(more)
    ensures LinkRight(l, more, announced)
  {
    hide Meets, Goal, Whole, Received, Meeting;
    DeliversInMore(l.mirrors, l.wire, past, more);
  }

  // ---------- writing ----------

  lemma {:induction false} OneMoreFrameOnWire(mirrors: map<string, View>, wire: seq<Frame>, f: Frame, past: set<View>)
    requires Delivers(mirrors, wire, past)
    requires Received(End(mirrors, wire), f).Some? && MirrorsRight(Took(End(mirrors, wire), f), past)
    ensures Delivers(mirrors, wire + [f], past) && End(mirrors, wire + [f]) == Took(End(mirrors, wire), f)
    decreases |wire|
  {
    hide Received;
    if wire == [] {
      assert [f][1..] == [];
      assert wire + [f] == [f];
      assert End(Took(mirrors, f), []) == Took(mirrors, f);
      assert Delivers(Took(mirrors, f), [], past);
    } else {
      OneMoreFrameOnWire(Took(mirrors, wire[0]), wire[1..], f, past);
      assert (wire + [f])[1..] == wire[1..] + [f];
    }
  }

  lemma {:induction false} EndIsRight(mirrors: map<string, View>, wire: seq<Frame>, past: set<View>)
    requires Delivers(mirrors, wire, past)
    ensures MirrorsRight(End(mirrors, wire), past)
    decreases |wire|
  {
    if wire != [] {
      EndIsRight(Took(mirrors, wire[0]), wire[1..], past);
    }
  }

  /** Whatever the writer does for a signal that is met, the client then shows the signal's view. */
  lemma WriterLeads(end: map<string, View>, known: map<string, u64>, s: Signal, id: string, past: set<View>)
    requires PastRight(past) && MirrorsRight(end, past) && SignalRight(s, id, past)
    requires id in known ==> id in end && end[id].version == known[id] && Meets(end[id], s)
    ensures if WantsFrame(BundledOnly(), known, s)
            then Received(end, FrameFor(BundledOnly(), known, s).value) == Some(end[id := Goal(s)])
            else id in end && id in known && known[id] == s.version && end[id] == Goal(s)
  {
    hide ApplyPatch, FromSnapshot;
    var snapshot := s.snapshot.value.frame;
    SnapshotFrameId(snapshot);
    if WantsFrame(BundledOnly(), known, s) && id in known && UsesPatch(known[id], s) {
      assert FrameFor(BundledOnly(), known, s) == Some(s.patch.value.encoded.frame);
    }
  }

  lemma SnapshotFrameId(f: Frame)
    requires f.Snapshot? && FromSnapshot(f).Ok?
    ensures FromSnapshot(f).value.paneId == f.paneId && MirrorValid(FromSnapshot(f).value)
  {
  }

  // The next link after `id` was written: only that pane's mirror and known version moved, to the signal's.
  ghost predicate WroteOne(l: Link, n: Link, id: string)
    requires id in l.reading && Whole(l.reading[id])
  {
    && EndOf(n) == EndOf(l)[id := Goal(l.reading[id])] && n.known == l.known[id := l.reading[id].version]
    && n.reading == l.reading - {id} && n.published == l.published && n.latest == l.latest
    && n.unread == l.unread && n.stopped == l.stopped
  }

  // How the end changes when the writer answers a signal.
  lemma WrittenEnd(l: Link, past: set<View>, id: string)
    requires id in l.reading && SignalRight(l.reading[id], id, past) && PastRight(past)
    requires Delivers(l.mirrors, l.wire, past)
    requires id in l.known ==>
      && id in EndOf(l) && EndOf(l)[id].version == l.known[id] && Whole(l.reading[id])
      && Meets(EndOf(l)[id], l.reading[id])
    ensures Whole(l.reading[id]) && WroteOne(l, Written(l, id), id)
    ensures Delivers(Written(l, id).mirrors, Written(l, id).wire, past)
  {
    hide Meets, Goal, Whole, Received, FrameFor, Delivers, MirrorsRight, End;
    var s := l.reading[id];
    RightIsWhole(s, id, past);
    EndIsRight(l.mirrors, l.wire, past);
    WriterLeads(EndOf(l), l.known, s, id, past);
    if WantsFrame(BundledOnly(), l.known, s) {
      EndStaysRight(EndOf(l), id, s, past);
      OneMoreFrameOnWire(l.mirrors, l.wire, FrameFor(BundledOnly(), l.known, s).value, past);
    } else {
      assert EndOf(l)[id := Goal(s)] == EndOf(l);
      assert l.known[id := s.version] == l.known;
    }
  }

  lemma EndStaysRight(end: map<string, View>, id: string, s: Signal, past: set<View>)
    requires MirrorsRight(end, past) && SignalRight(s, id, past)
    ensures MirrorsRight(end[id := Goal(s)], past)
  {
    hide Goal;
  }

  lemma WroteKnown(l: Link, n: Link, id: string, past: set<View>)
    requires id in l.reading && SignalRight(l.reading[id], id, past) && WroteOne(l, n, id)
    requires KnownRight(l.known, EndOf(l)) && ReadingRight(l, EndOf(l))
    ensures KnownRight(n.known, EndOf(n)) && ReadingRight(n, EndOf(n))
  {
    hide Meets, Goal, Whole, End;
  }

  lemma WrotePublished(l: Link, n: Link, id: string, past: set<View>)
    requires id in l.reading && SignalRight(l.reading[id], id, past) && WroteOne(l, n, id)
    requires PublishedRight(l, EndOf(l)) && ReadingRight(l, EndOf(l))
    ensures PublishedRight(n, EndOf(n))
  {
    hide Meets, Goal, Whole, End, Meeting;
    SameMeeting(l, n, id);
  }

  lemma WroteFinal(l: Link, n: Link, id: string, announced: map<string, u64>)
    requires id in l.reading && id in l.published && Whole(l.reading[id]) && WroteOne(l, n, id)
    requires AnnouncedRight(l, announced)
    ensures AnnouncedRight(n, announced)
    ensures forall other :: Final(n, other) == Final(l, other)
  {
    hide Goal, Whole, End;
  }

  lemma WriteKeepsLink(l: Link, past: set<View>, announced: map<string, u64>, id: string)
    requires LinkRight(l, past, announced) && id in l.reading
    ensures LinkRight(Written(l, id), past, announced)
    ensures forall other :: Final(Written(l, id), other) == Final(l, other)
    ensures forall other :: Meeting(Written(l, id), other) == Meeting(l, other)
  {
    hide Meets, Goal, Whole, Written, EndOf, Delivers, Meeting, Final, AnnouncedRight, PublishedRight;
    assert SignalRight(l.reading[id], id, past);
    WrittenEnd(l, past, id);
    var n := Written(l, id);
    WroteKnown(l, n, id, past);
    WrotePublished(l, n, id, past);
    WroteFinal(l, n, id, announced);
    SameMeeting(l, n, id);
  }

  // The writer's step does not change what the next signal will meet.
  lemma SameMeeting(l: Link, n: Link, id: string)
    requires id in l.reading && Whole(l.reading[id]) && WroteOne(l, n, id)
    ensures forall other :: Meeting(n, other) == Meeting(l, other)
  {
    hide Goal, Whole, End;
  }

  lemma ReadKeepsLink(l: Link, past: set<View>, announced: map<string, u64>)
    requires LinkRight(l, past, announced) && l.unread && l.reading == map[]
    ensures LinkRight(ReadAll(l), past, announced)
    ensures forall other :: Final(ReadAll(l), other) == Final(l, other)
    ensures forall other ::
      Meeting(ReadAll(l), other) == if other in l.published then Final(l, other) else Meeting(l, other)
  {
    hide Meets, Goal, Whole, Received, End, Delivers, SignalRight;
    assert EndOf(ReadAll(l)) == EndOf(l);
    forall id | id in l.published && id in l.known ensures Meets(EndOf(l)[id], l.published[id]) {
      assert Meeting(l, id) == Some(EndOf(l)[id]);
    }
  }

  lemma ConsumeKeepsLink(l: Link, past: set<View>, announced: map<string, u64>)
    requires LinkRight(l, past, announced) && l.wire != []
    ensures LinkRight(Consumed(l), past, announced) && Received(l.mirrors, l.wire[0]).Some?
    ensures EndOf(Consumed(l)) == EndOf(l)
    ensures forall other :: Final(Consumed(l), other) == Final(l, other)
    ensures forall other :: Meeting(Consumed(l), other) == Meeting(l, other)
  {
    hide Meets, Goal, Whole, Received, MirrorsRight, SignalsRight;
    assert EndOf(Consumed(l)) == EndOf(l);
    SameEnd(l, Consumed(l), announced);
  }

  // Links that end alike and agree on everything but the way there.
  lemma SameEnd(l: Link, n: Link, announced: map<string, u64>)
    requires EndOf(n) == EndOf(l) && n == l.(wire := n.wire, mirrors := n.mirrors)
    requires ReadingRight(l, EndOf(l)) && PublishedRight(l, EndOf(l)) && AnnouncedRight(l, announced)
    ensures ReadingRight(n, EndOf(n)) && PublishedRight(n, EndOf(n)) && AnnouncedRight(n, announced)
    ensures forall other :: Final(n, other) == Final(l, other) && Meeting(n, other) == Meeting(l, other)
  {
    hide Meets, Goal, Whole, EndOf;
  }

  // ---------- signalling ----------

  // Dropping patches asks less.
  predicate Weaker(t: Signal, s: Signal) {
    && t.paneId == s.paneId && t.version == s.version && t.snapshot == s.snapshot
    && (s.snapshotRequired ==> t.snapshotRequired) && (t.patch.Some? ==> t.patch == s.patch)
  }

  lemma WeakerMeets(v: View, s: Signal, t: Signal)
    requires Whole(s) && Weaker(t, s) && Meets(v, s)
    ensures Whole(t) && Goal(t) == Goal(s) && Meets(v, t)
  {
  }

  // A client that already shows the signal's view needs nothing.
  lemma GoalMeets(s: Signal)
    requires Whole(s) && Goal(s).version == s.version
    ensures Meets(Goal(s), s)
  {
  }

  predicate OneNew(before: map<string, Signal>, after: map<string, Signal>, s: Signal) {
    && after.Keys == before.Keys + {s.paneId}
    && (forall other | other in after :: Weaker(after[other], if other == s.paneId then s else before[other]))
  }

  lemma NextIsOneNew(latest: map<string, Signal>, cap: nat, s: Signal)
    ensures OneNew(latest, NextLatest(latest, cap, s), s)
  {
  }

  lemma WeakerRight(s: Signal, t: Signal, id: string, past: set<View>)
    requires SignalRight(s, id, past) && Weaker(t, s)
    ensures SignalRight(t, id, past)
  {
  }

  lemma NextSignalsRight(before: map<string, Signal>, after: map<string, Signal>, s: Signal, past: set<View>)
    requires SignalsRight(before, past) && SignalRight(s, s.paneId, past) && OneNew(before, after, s)
    ensures SignalsRight(after, past)
  {
    hide SignalRight, Weaker;
    forall id | id in after ensures SignalRight(after[id], id, past) {
      WeakerRight(if id == s.paneId then s else before[id], after[id], id, past);
    }
  }

  // Everything published before is met by whatever meets the pane next, also when it was read already.
  lemma PublishedIsMet(l: Link, past: set<View>, announced: map<string, u64>, id: string)
    requires LinkRight(l, past, announced) && id in l.published && Meeting(l, id).Some?
    ensures Meets(Meeting(l, id).value, l.published[id])
  {
    hide Meets, Goal, Whole, End, Delivers;
    assert SignalRight(l.published[id], id, past);
    if !l.unread {
      GoalMeets(l.published[id]);
    }
  }

  // What holds of each signal of the next published set.
  lemma EachPublished(
      l: Link, past: set<View>, announced: map<string, u64>, after: map<string, Signal>, s: Signal, id: string)
    requires LinkRight(l, past, announced) && SignalRight(s, s.paneId, past) && OneNew(l.published, after, s)
    requires Meeting(l, s.paneId).Some? ==> Whole(s) && Meets(Meeting(l, s.paneId).value, s)
    requires id in after
    ensures var before := if id == s.paneId then s else l.published[id];
            && Whole(before) && Whole(after[id]) && Goal(after[id]) == Goal(before)
            && after[id].version == before.version
            && (Meeting(l, id).Some? ==> Meets(Meeting(l, id).value, after[id]))
  {
    hide Meets, Goal, Whole, EndOf, Delivers, Weaker, SignalRight, Meeting, AnnouncedRight, KnownRight, ReadingRight;
    var before := if id == s.paneId then s else l.published[id];
    assert id != s.paneId ==> SignalRight(l.published[id], id, past);
    SameGoal(before, after[id], id, past);
    if Meeting(l, id).Some? {
      if id != s.paneId {
        PublishedIsMet(l, past, announced, id);
      }
      WeakerMeets(Meeting(l, id).value, before, after[id]);
    }
  }

  lemma EachIsPublished(
      l: Link, past: set<View>, announced: map<string, u64>, after: map<string, Signal>, s: Signal)
    requires LinkRight(l, past, announced) && SignalRight(s, s.paneId, past) && OneNew(l.published, after, s)
    requires Meeting(l, s.paneId).Some? ==> Whole(s) && Meets(Meeting(l, s.paneId).value, s)
    ensures PublishedRight(Published(l, after), EndOf(Published(l, after)))
  {
    hide LinkRight, OneNew, SignalRight, Meets, Goal, Whole, End, Meeting;
    var n := Published(l, after);
    forall id | id in after
      ensures Whole(after[id]) && (Meeting(n, id).Some? ==> Meets(Meeting(n, id).value, after[id]))
    {
      EachPublished(l, past, announced, after, s, id);
      SameNext(l, n, id);
    }
  }

  lemma SameNext(l: Link, n: Link, id: string)
    requires n.reading == l.reading && n.known == l.known && n.wire == l.wire && n.mirrors == l.mirrors
    ensures Meeting(n, id) == Meeting(l, id)
  {
  }

  lemma PublishAnnounced(l: Link, announced: map<string, u64>, after: map<string, Signal>, s: Signal)
    requires AnnouncedRight(l, announced) && OneNew(l.published, after, s)
    ensures AnnouncedRight(Published(l, after), announced[s.paneId := s.version])
    ensures ReadingRight(l, EndOf(l)) ==> ReadingRight(Published(l, after), EndOf(l))
  {
    hide Meets, Whole, End;
  }

  lemma PublishFinal(
      l: Link, past: set<View>, announced: map<string, u64>, after: map<string, Signal>, s: Signal, id: string)
    requires LinkRight(l, past, announced) && SignalRight(s, s.paneId, past) && OneNew(l.published, after, s)
    ensures id == s.paneId ==> Whole(s) && Final(Published(l, after), id) == Some(Goal(s))
    ensures id != s.paneId ==> Final(Published(l, after), id) == Final(l, id)
  {
    hide Meets, Goal, Whole, EndOf, Delivers, Weaker, SignalRight, Meeting, AnnouncedRight, KnownRight, ReadingRight;
    assert EndOf(Published(l, after)) == EndOf(l) by {
      SameWire(l, Published(l, after));
    }
    if id == s.paneId {
      SameGoal(s, after[id], id, past);
    } else if id in after {
      assert SignalRight(l.published[id], id, past);
      SameGoal(l.published[id], after[id], id, past);
    }
  }

  lemma SameWire(l: Link, n: Link)
    requires n.wire == l.wire && n.mirrors == l.mirrors
    ensures EndOf(n) == EndOf(l)
  {
  }

  lemma PublishKeepsLink(l: Link, past: set<View>, announced: map<string, u64>, after: map<string, Signal>, s: Signal)
    requires LinkRight(l, past, announced) && SignalRight(s, s.paneId, past) && OneNew(l.published, after, s)
    requires Meeting(l, s.paneId).Some? ==> Meets(Meeting(l, s.paneId).value, s)
    ensures LinkRight(Published(l, after), past, announced[s.paneId := s.version])
    ensures Final(Published(l, after), s.paneId) == Some(Goal(s))
    ensures forall other | other != s.paneId :: Final(Published(l, after), other) == Final(l, other)
  {
    hide Meets, Goal, Whole, EndOf, Delivers, SignalRight, SignalsRight, OneNew;
    hide KnownRight, ReadingRight, PublishedRight, AnnouncedRight, Meeting, Final;
    var n := Published(l, after);
    SameWire(l, n);
    RightIsWhole(s, s.paneId, past);
    NextSignalsRight(l.published, after, s, past);
    EachIsPublished(l, past, announced, after, s);
    PublishAnnounced(l, announced, after, s);
    PublishFinal(l, past, announced, after, s, s.paneId);
    forall other | other != s.paneId ensures Final(n, other) == Final(l, other) {
      PublishFinal(l, past, announced, after, s, other);
    }
  }

  lemma RightIsWhole(s: Signal, id: string, past: set<View>)
    requires SignalRight(s, id, past)
    ensures Whole(s)
  {
  }

  lemma SameGoal(s: Signal, t: Signal, id: string, past: set<View>)
    requires SignalRight(s, id, past) && Weaker(t, s)
    ensures Whole(s) && Whole(t) && Goal(t) == Goal(s) && t.version == s.version
  {
  }

  lemma SignalledMeeting(l: Link, cap: nat, s: Signal)
    ensures forall other :: Meeting(Signalled(l, cap, s), other) == Meeting(l, other)
  {
    hide NextLatest, SetBytes, End;
  }

  /** A signal that is met keeps the link right and is what the client ends at, unless the channel stops. */
  lemma SignalKeepsLink(l: Link, past: set<View>, announced: map<string, u64>, cap: nat, s: Signal)
    requires LinkRight(l, past, announced) && !l.stopped && SignalRight(s, s.paneId, past)
    requires Meeting(l, s.paneId).Some? ==> Meets(Meeting(l, s.paneId).value, s)
    ensures var n := Signalled(l, cap, s);
            && LinkRight(n, past, if n.stopped then announced else announced[s.paneId := s.version])
            && (!n.stopped ==> Final(n, s.paneId) == Some(Goal(s)))
            && (forall other | n.stopped || other != s.paneId :: Final(n, other) == Final(l, other))
            && forall other :: Meeting(n, other) == Meeting(l, other)
  {
    hide Meets, Goal, Whole, End, Delivers, OneNew, SignalRight, NextLatest, SetBytes;
    var latest := NextLatest(l.latest, cap, s);
    NextIsOneNew(l.latest, cap, s);
    SignalledMeeting(l, cap, s);
    if SetBytes(latest) <= cap {
      PublishKeepsLink(l, past, announced, latest, s);
    } else {
      var n := Signalled(l, cap, s);
      assert EndOf(n) == EndOf(l) && forall other :: Meeting(n, other) == Meeting(l, other);
    }
  }

  // The link holds nothing of a name that was never announced.
  lemma UnannouncedIsUnheld(l: Link, past: set<View>, announced: map<string, u64>, id: string)
    requires LinkRight(l, past, announced) && id !in announced
    ensures Meeting(l, id).None? && Final(l, id).None?
  {
    hide Meets, Goal, Whole, Delivers, SignalsRight, EndOf;
  }

  // ---------- catching up ----------

  predicate CaughtUp(l: Link) {
    !l.unread && l.reading == map[] && l.wire == []
  }

  /** Once everything published is written and received, every announced pane is mirrored at its announced version
      and shows what was announced last. */
  lemma CaughtUpShowsFinal(l: Link, past: set<View>, announced: map<string, u64>, id: string)
    requires LinkRight(l, past, announced) && CaughtUp(l) && id in announced
    ensures id in l.mirrors && Final(l, id) == Some(l.mirrors[id]) && l.mirrors[id].version == announced[id]
  {
    hide Meets, Goal, Whole;
    if id in l.published {
      assert SignalRight(l.published[id], id, past);
    }
  }
}
