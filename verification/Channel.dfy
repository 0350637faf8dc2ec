/** The latest-wins surface channel of one client and the task that writes frames from it. */
module Channel {
  import opened Types
  import opened Mirror

  /** An encoded frame: its content and how many bytes it takes. */
  datatype Encoded = Encoded(frame: Frame, size: nat)

  datatype SurfacePatch = SurfacePatch(base: u64, encoded: Encoded)

  datatype Signal = Signal(
    paneId: string, version: u64, snapshotRequired: bool,
    snapshot: Option<Encoded>, patch: Option<SurfacePatch>)

  datatype SignalSet = SignalSet(generation: u64, panes: map<string, Signal>)

  datatype OutputError = SurfaceByteQueueFull(cap: nat, pending: nat) | SurfaceQueueClosed

  function SignalBytes(s: Signal): nat {
    (if s.snapshot.Some? then s.snapshot.value.size else 0)
    + (if s.patch.Some? then s.patch.value.encoded.size else 0)
  }

  ghost function SetBytes(panes: map<string, Signal>): nat {
    if panes == map[] then 0
    else
      var id :| id in panes;
      SignalBytes(panes[id]) + SetBytes(panes - {id})
  }

  /** Every pending frame counts: each pane's snapshot and its patch. */
  lemma BytesOfAll(panes: map<string, Signal>, id: string)
    ensures SetBytes(map[]) == 0
    ensures id in panes ==>
      SetBytes(panes) == (if panes[id].snapshot.Some? then panes[id].snapshot.value.size else 0)
                         + (if panes[id].patch.Some? then panes[id].patch.value.encoded.size else 0)
                         + SetBytes(panes - {id})
  {
    if id in panes {
      SetBytesRemove(panes, id);
    }
  }

  lemma {:induction false} SetBytesRemove(panes: map<string, Signal>, id: string)
    requires id in panes
    ensures SetBytes(panes) == SignalBytes(panes[id]) + SetBytes(panes - {id})
    decreases |panes|
  {
    var first :| first in panes && SetBytes(panes) == SignalBytes(panes[first]) + SetBytes(panes - {first});
    if first != id {
      SetBytesRemove(panes - {first}, id);
      SetBytesRemove(panes - {id}, first);
      assert panes - {first} - {id} == panes - {id} - {first};
    }
  }

  /** The pending set after one signal; `snapshotRequired` is inherited from the pane's previous signal. */
  function Inserted(panes: map<string, Signal>, s: Signal): map<string, Signal> {
    panes[s.paneId :=
      s.(snapshotRequired := s.snapshotRequired || (s.paneId in panes && panes[s.paneId].snapshotRequired))]
  }

  function WithoutPatches(panes: map<string, Signal>): map<string, Signal> {
    map id | id in panes :: panes[id].(snapshotRequired := true, patch := None)
  }

  ghost function Budgeted(panes: map<string, Signal>, cap: nat): map<string, Signal> {
    if SetBytes(panes) <= cap then panes else WithoutPatches(panes)
  }

  /** `latest` after the call, whether or not the set could be published. */
  ghost function NextLatest(panes: map<string, Signal>, cap: nat, s: Signal): map<string, Signal> {
    Budgeted(Inserted(panes, s), cap)
  }

  // A signal reduced to its snapshot.
  function Bare(s: Signal): Signal {
    s.(snapshotRequired := true, patch := None)
  }

  lemma {:induction false} PatchesOnlyAdd(panes: map<string, Signal>)
    ensures SetBytes(WithoutPatches(panes)) <= SetBytes(panes)
    decreases |panes|
  {
    if panes != map[] {
      var id :| id in panes && SetBytes(panes) == SignalBytes(panes[id]) + SetBytes(panes - {id});
      PatchesOnlyAdd(panes - {id});
      assert WithoutPatches(panes) - {id} == WithoutPatches(panes - {id});
      SetBytesRemove(WithoutPatches(panes), id);
      assert SignalBytes(WithoutPatches(panes)[id]) <= SignalBytes(panes[id]);
      assert SetBytes(WithoutPatches(panes) - {id}) == SetBytes(WithoutPatches(panes - {id}));
    } else {
      assert WithoutPatches(panes) == map[];
    }
  }

  /** A signal fails for the budget exactly when the snapshots alone, with the new one in its pane's place, exceed
      the cap. What stays pending are the same snapshots. */
  lemma SignalFits(panes: map<string, Signal>, cap: nat, s: Signal)
    ensures SetBytes(NextLatest(panes, cap, s)) <= cap <==> SetBytes(WithoutPatches(panes)[s.paneId := Bare(s)]) <= cap
    ensures WithoutPatches(NextLatest(panes, cap, s)) == WithoutPatches(panes)[s.paneId := Bare(s)]
  {
    var inserted := Inserted(panes, s);
    PatchesOnlyAdd(inserted);
    assert WithoutPatches(inserted) == WithoutPatches(panes)[s.paneId := Bare(s)];
    assert WithoutPatches(WithoutPatches(inserted)) == WithoutPatches(inserted);
  }

  class AsyncClientOutput {
    const surfaceByteCap: nat
    var latest: SignalSet
    var published: SignalSet
    var receiverOpen: bool

    constructor (cap: nat)
      ensures surfaceByteCap == cap && receiverOpen
      ensures latest == published == SignalSet(0, map[])
    {
      surfaceByteCap := cap;
      latest, published, receiverOpen := SignalSet(0, map[]), SignalSet(0, map[]), true;
    }

    method SurfaceSignalSetBytes() returns (bytes: nat)
      ensures bytes == SetBytes(latest.panes)
    {
      bytes := 0;
      var rest := latest.panes;
      while rest != map[]
        invariant bytes + SetBytes(rest) == SetBytes(latest.panes)
        decreases |rest|
      {
        var id :| id in rest;
        SetBytesRemove(rest, id);
        bytes := bytes + SignalBytes(rest[id]);
        rest := rest - {id};
      }
    }

    method EnforceSurfaceBudget() returns (r: Result<(), OutputError>)
      modifies this`latest
      ensures latest.generation == old(latest.generation)
      ensures latest.panes == Budgeted(old(latest.panes), surfaceByteCap)
      ensures SetBytes(old(latest.panes)) <= surfaceByteCap ==> latest == old(latest) && r.Ok?
      ensures SetBytes(old(latest.panes)) > surfaceByteCap ==>
        && latest.panes.Keys == old(latest.panes.Keys)
        && forall id | id in latest.panes ::
             latest.panes[id] == old(latest.panes)[id].(snapshotRequired := true, patch := None)
      ensures r == if SetBytes(latest.panes) <= surfaceByteCap then Ok(())
                   else Err(SurfaceByteQueueFull(surfaceByteCap, SetBytes(latest.panes)))
    {
      var pending := SurfaceSignalSetBytes();
      if pending <= surfaceByteCap {
        return Ok(());
      }
      latest := latest.(panes := WithoutPatches(latest.panes));
      pending := SurfaceSignalSetBytes();
      if pending <= surfaceByteCap {
        return Ok(());
      }
      return Err(SurfaceByteQueueFull(surfaceByteCap, pending));
    }

    /** Publishes the pending set only within the byte cap; a refused set stays pending. */
    method UpdateSurfaceSignal(s: Signal) returns (r: Result<(), OutputError>)
      modifies this`latest, this`published
      ensures latest.panes == NextLatest(old(latest.panes), surfaceByteCap, s)
      ensures latest.generation == SatInc(old(latest.generation))
      ensures r.Ok? <==> SetBytes(latest.panes) <= surfaceByteCap && receiverOpen
      ensures r.Ok? ==> published == latest
      ensures r.Err? ==> published == old(published)
    {
      var required := s.snapshotRequired || (s.paneId in latest.panes && latest.panes[s.paneId].snapshotRequired);
      latest := latest.(generation := SatInc(latest.generation));
      latest := latest.(panes := latest.panes[s.paneId := s.(snapshotRequired := required)]);
      var budget := EnforceSurfaceBudget();
      if budget.Err? {
        return budget;
      }
      if !receiverOpen {
        return Err(SurfaceQueueClosed);
      }
      published := latest;
      return Ok(());
    }
  }

  /** The pending set after a sequence of signals. */
  ghost function LatestAfter(panes: map<string, Signal>, cap: nat, calls: seq<Signal>): map<string, Signal> {
    if calls == [] then panes
    else NextLatest(LatestAfter(panes, cap, calls[..|calls| - 1]), cap, calls[|calls| - 1])
  }

  // ---------- what is kept within the budget ----------

  ghost predicate EverRequired(calls: seq<Signal>, id: string) {
    exists k | 0 <= k < |calls| :: calls[k].paneId == id && calls[k].snapshotRequired
  }

  /** Each pane's last signal, as it was given; a snapshot stays required once it was. */
  ghost function LastSignals(calls: seq<Signal>): map<string, Signal> {
    if calls == [] then map[]
    else
      var s := calls[|calls| - 1];
      LastSignals(calls[..|calls| - 1])[s.paneId := s.(snapshotRequired := EverRequired(calls, s.paneId))]
  }

  /** After each call the last signals of all panes fit the cap, patches included. */
  ghost predicate FitsThroughout(cap: nat, calls: seq<Signal>) {
    forall n | 0 <= n <= |calls| :: SetBytes(LastSignals(calls[..n])) <= cap
  }

  lemma EverMore(calls: seq<Signal>, s: Signal, id: string)
    ensures EverRequired(calls + [s], id) <==> EverRequired(calls, id) || (s.paneId == id && s.snapshotRequired)
  {
    var all := calls + [s];
    if EverRequired(calls, id) {
      var k :| 0 <= k < |calls| && calls[k].paneId == id && calls[k].snapshotRequired;
      assert all[k].paneId == id && all[k].snapshotRequired;
    }
    if s.paneId == id && s.snapshotRequired {
      assert all[|calls|].paneId == id && all[|calls|].snapshotRequired;
    }
  }

  // The last signal of a pane, found by its place.
  lemma {:induction false} LastSignalAt(calls: seq<Signal>, last: nat)
    requires last < |calls| && forall k | last < k < |calls| :: calls[k].paneId != calls[last].paneId
    ensures var id := calls[last].paneId;
            && id in LastSignals(calls)
            && LastSignals(calls)[id] == calls[last].(snapshotRequired := EverRequired(calls, id))
    decreases |calls|
  {
    hide EverRequired;
    if last < |calls| - 1 {
      var init, s := calls[..|calls| - 1], calls[|calls| - 1];
      LastSignalAt(init, last);
      assert calls == init + [s];
      EverMore(init, s, calls[last].paneId);
    }
  }

  lemma {:induction false} LastFlag(calls: seq<Signal>, id: string)
    ensures EverRequired(calls, id) <==> id in LastSignals(calls) && LastSignals(calls)[id].snapshotRequired
  {
    hide EverRequired;
    if calls == [] {
      NeverRequired(id);
    } else {
      var init, s := calls[..|calls| - 1], calls[|calls| - 1];
      LastFlag(init, id);
      assert calls == init + [s];
      EverMore(init, s, id);
    }
  }

  lemma NeverRequired(id: string)
    ensures !EverRequired([], id)
  {
  }

  lemma FitsBefore(cap: nat, calls: seq<Signal>)
    requires FitsThroughout(cap, calls) && calls != []
    ensures FitsThroughout(cap, calls[..|calls| - 1]) && SetBytes(LastSignals(calls)) <= cap
  {
    hide SetBytes, LastSignals;
    var init := calls[..|calls| - 1];
    forall n | 0 <= n <= |init| ensures SetBytes(LastSignals(init[..n])) <= cap {
      assert init[..n] == calls[..n];
    }
    assert calls[..|calls|] == calls;
  }

  lemma OneMoreLast(calls: seq<Signal>)
    requires calls != []
    ensures Inserted(LastSignals(calls[..|calls| - 1]), calls[|calls| - 1]) == LastSignals(calls)
  {
    hide EverRequired;
    var init, s := calls[..|calls| - 1], calls[|calls| - 1];
    LastFlag(init, s.paneId);
    assert calls == init + [s];
    EverMore(init, s, s.paneId);
  }

  lemma {:induction false} PendingAreLast(cap: nat, calls: seq<Signal>)
    requires FitsThroughout(cap, calls)
    ensures LatestAfter(map[], cap, calls) == LastSignals(calls)
  {
    hide SetBytes, Inserted, LastSignals, FitsThroughout, WithoutPatches;
    if calls == [] {
      NoSignals();
    } else {
      FitsBefore(cap, calls);
      PendingAreLast(cap, calls[..|calls| - 1]);
      OneMoreLast(calls);
    }
  }

  lemma NoSignals()
    ensures LastSignals([]) == map[]
  {
  }

  /** While everything fits, nothing is dropped: what is pending of each pane is exactly its last signal, with its
      patch, and a snapshot is required only if one was asked for. */
  lemma PatchesAreKept(cap: nat, calls: seq<Signal>, last: nat)
    requires FitsThroughout(cap, calls) && last < |calls|
    requires forall k | last < k < |calls| :: calls[k].paneId != calls[last].paneId
    ensures var id := calls[last].paneId;
            var after := LatestAfter(map[], cap, calls);
            id in after && after[id] == calls[last].(snapshotRequired := EverRequired(calls, id))
  {
    hide LatestAfter, LastSignals, FitsThroughout;
    PendingAreLast(cap, calls);
    LastSignalAt(calls, last);
  }

  /** Once a pane needs a snapshot it keeps needing one, and it is never again sent a patch. */
  lemma {:induction false} SnapshotRequirementSticks(
      panes: map<string, Signal>, cap: nat, calls: seq<Signal>, id: string)
    requires id in panes && panes[id].snapshotRequired
    ensures var after := LatestAfter(panes, cap, calls);
            && id in after && after[id].snapshotRequired
            && forall source, known :: FrameFor(source, known, after[id])
                 == if after[id].snapshot.Some? then Some(after[id].snapshot.value.frame)
                    else source.snapshot(after[id].paneId)
    decreases |calls|
  {
    if calls != [] {
      SnapshotRequirementSticks(panes, cap, calls[..|calls| - 1], id);
    }
  }

  /** A pane's pending version is always the one signalled last. */
  lemma {:induction false} LatestWins(panes: map<string, Signal>, cap: nat, calls: seq<Signal>, last: nat, id: string)
    requires last < |calls| && calls[last].paneId == id
    requires forall k | last < k < |calls| :: calls[k].paneId != id
    ensures var after := LatestAfter(panes, cap, calls);
            && id in after && after[id].version == calls[last].version
            && after[id].snapshot == calls[last].snapshot
            && (after[id].patch == calls[last].patch || (after[id].patch.None? && after[id].snapshotRequired))
    decreases |calls|
  {
    if last < |calls| - 1 {
      LatestWins(panes, cap, calls[..|calls| - 1], last, id);
    }
  }

  // ---------- the writer ----------

  /** The session as a writer may ask it for frames, besides what is bundled with a signal. */
  datatype Source = Source(
    patchKind: string -> PatchKind, snapshot: string -> Option<Frame>, patch: (string, u64) -> Option<Frame>)

  /** The daemon's own source (`BundledSurfaceFrameSource`), which has nothing to add. */
  function BundledOnly(): Source {
    Source(_ => FullRefreshRequired, _ => None, (_, _) => None)
  }

  predicate Adjacent(known: map<string, u64>, s: Signal) {
    !s.snapshotRequired && s.paneId in known && known[s.paneId] as int + 1 == s.version as int
  }

  // `bundled_surface_frame_for_signal`.
  function BundledFrame(known: map<string, u64>, s: Signal): Option<Frame> {
    if Adjacent(known, s) && s.patch.Some? && s.patch.value.base == known[s.paneId]
    then Some(s.patch.value.encoded.frame)
    else if s.snapshot.Some? then Some(s.snapshot.value.frame)
    else None
  }

  /** The frame sent for a signal to a client that knows the given versions. */
  function FrameFor(source: Source, known: map<string, u64>, s: Signal): Option<Frame> {
    if BundledFrame(known, s).Some? then BundledFrame(known, s)
    else if Adjacent(known, s) && source.patchKind(s.paneId) != FullRefreshRequired
    then source.patch(s.paneId, known[s.paneId])
    else source.snapshot(s.paneId)
  }

  /** The writer's choice, from the signal and the version it knows: the bundled patch only for the version before,
      else the bundled snapshot, else the session's own patch for the version before, else its snapshot. */
  lemma WriterChoice(source: Source, known: map<string, u64>, s: Signal)
    ensures var before := !s.snapshotRequired && s.paneId in known && known[s.paneId] as int + 1 == s.version as int;
            var frame := FrameFor(source, known, s);
            if before && s.patch.Some? && s.patch.value.base as int + 1 == s.version as int
            then frame == Some(s.patch.value.encoded.frame)
            else if s.snapshot.Some? then frame == Some(s.snapshot.value.frame)
            else if before && source.patchKind(s.paneId) != FullRefreshRequired
            then frame == source.patch(s.paneId, s.version - 1)
            else frame == source.snapshot(s.paneId)
  {
  }

  predicate WantsFrame(source: Source, known: map<string, u64>, s: Signal) {
    !(s.paneId in known && known[s.paneId] == s.version) && FrameFor(source, known, s).Some?
  }

  predicate Keyed(panes: map<string, Signal>) {
    forall id | id in panes :: panes[id].paneId == id
  }

  // The signals a writer with the given versions answers with a frame.
  function Answered(source: Source, known: map<string, u64>, panes: map<string, Signal>): map<string, Signal> {
    map id | id in panes && WantsFrame(source, known, panes[id]) :: panes[id]
  }

  function KnownAfter(source: Source, known: map<string, u64>, panes: map<string, Signal>): map<string, u64> {
    known + SignalVersions(Answered(source, known, panes))
  }

  function SignalVersions(panes: map<string, Signal>): map<string, u64> {
    map id | id in panes :: panes[id].version
  }

  function Frames(source: Source, known: map<string, u64>, panes: map<string, Signal>): map<string, Frame>
    requires forall id | id in panes :: FrameFor(source, known, panes[id]).Some?
  {
    map id | id in panes :: FrameFor(source, known, panes[id]).value
  }

  function FramesFor(source: Source, known: map<string, u64>, panes: map<string, Signal>): map<string, Frame> {
    Frames(source, known, Answered(source, known, panes))
  }

  lemma OneMoreAnswer(source: Source, known: map<string, u64>, done: map<string, Signal>, s: Signal)
    requires s.paneId !in done
    ensures Answered(source, known, done[s.paneId := s])
            == if WantsFrame(source, known, s) then Answered(source, known, done)[s.paneId := s]
               else Answered(source, known, done)
  {
  }

  lemma SameKnown(source: Source, known: map<string, u64>, now: map<string, u64>, s: Signal)
    requires s.paneId in now <==> s.paneId in known
    requires s.paneId in known ==> now[s.paneId] == known[s.paneId]
    ensures FrameFor(source, now, s) == FrameFor(source, known, s)
    ensures WantsFrame(source, now, s) == WantsFrame(source, known, s)
  {
  }

  lemma OneMoreVersion(panes: map<string, Signal>, s: Signal)
    ensures SignalVersions(panes[s.paneId := s]) == SignalVersions(panes)[s.paneId := s.version]
  {
  }

  lemma OneMoreFrame(source: Source, known: map<string, u64>, panes: map<string, Signal>, s: Signal)
    requires forall id | id in panes :: FrameFor(source, known, panes[id]).Some?
    requires FrameFor(source, known, s).Some?
    ensures Frames(source, known, panes[s.paneId := s])
            == Frames(source, known, panes)[s.paneId := FrameFor(source, known, s).value]
  {
  }

  lemma AnswerUnaffected(source: Source, known: map<string, u64>, done: map<string, Signal>, s: Signal)
    requires s.paneId !in done
    ensures FrameFor(source, KnownAfter(source, known, done), s) == FrameFor(source, known, s)
    ensures WantsFrame(source, KnownAfter(source, known, done), s) == WantsFrame(source, known, s)
  {
    SameKnown(source, known, KnownAfter(source, known, done), s);
  }

  lemma OneMoreKnown(source: Source, known: map<string, u64>, done: map<string, Signal>, s: Signal)
    requires s.paneId !in done
    ensures KnownAfter(source, known, done[s.paneId := s])
            == if WantsFrame(source, known, s) then KnownAfter(source, known, done)[s.paneId := s.version]
               else KnownAfter(source, known, done)
  {
    OneMoreAnswer(source, known, done, s);
    if WantsFrame(source, known, s) {
      OneMoreVersion(Answered(source, known, done), s);
    }
  }

  lemma OneMoreWritten(source: Source, known: map<string, u64>, done: map<string, Signal>, s: Signal)
    requires s.paneId !in done
    ensures FramesFor(source, known, done[s.paneId := s])
            == if WantsFrame(source, known, s)
               then FramesFor(source, known, done)[s.paneId := FrameFor(source, known, s).value]
               else FramesFor(source, known, done)
  {
    OneMoreAnswer(source, known, done, s);
    if WantsFrame(source, known, s) {
      OneMoreFrame(source, known, Answered(source, known, done), s);
    }
  }

  lemma OneMoreSignal(
      source: Source, known: map<string, u64>, panes: map<string, Signal>, rest: set<string>, id: string)
    requires Keyed(panes) && id in rest && rest <= panes.Keys
    ensures var s := panes[id];
            var now := KnownAfter(source, known, panes - rest);
            && FrameFor(source, now, s) == FrameFor(source, known, s)
            && WantsFrame(source, now, s) == WantsFrame(source, known, s)
            && KnownAfter(source, known, panes - (rest - {id}))
               == (if WantsFrame(source, known, s) then now[id := s.version] else now)
    ensures var s := panes[id];
            var sent := FramesFor(source, known, panes - rest);
            FramesFor(source, known, panes - (rest - {id}))
            == if WantsFrame(source, known, s) then sent[id := FrameFor(source, known, s).value] else sent
  {
    AnswerUnaffected(source, known, panes - rest, panes[id]);
    OneMoreKnown(source, known, panes - rest, panes[id]);
    OneMoreWritten(source, known, panes - rest, panes[id]);
    assert panes - (rest - {id}) == (panes - rest)[id := panes[id]];
  }

  lemma NothingWritten(source: Source, known: map<string, u64>, panes: map<string, Signal>)
    ensures KnownAfter(source, known, panes - panes.Keys) == known
    ensures FramesFor(source, known, panes - panes.Keys) == map[]
  {
    assert panes - panes.Keys == map[];
    assert Answered(source, known, map[]) == map[];
    assert known + map[] == known;
  }

  class ClientWriteTask {
    const source: Source
    var nextSeq: u64
    var known: map<string, u64>

    constructor (source: Source, seqNumber: u64, knownVersions: map<string, u64>)
      ensures this.source == source && nextSeq == seqNumber && known == knownVersions
    {
      this.source := source;
      nextSeq, known := seqNumber, knownVersions;
    }

    /** Skips a pane whose version is known; otherwise writes a frame and records the version. */
    method WriteSignal(s: Signal) returns (frame: Option<Frame>)
      modifies this
      ensures frame == if WantsFrame(source, old(known), s) then FrameFor(source, old(known), s) else None
      ensures known == if WantsFrame(source, old(known), s) then old(known)[s.paneId := s.version] else old(known)
      ensures nextSeq == if frame.Some? then SatInc(old(nextSeq)) else old(nextSeq)
    {
      if s.paneId in known && known[s.paneId] == s.version {
        return None;
      }
      frame := FrameFor(source, known, s);
      if frame.Some? {
        nextSeq := SatInc(nextSeq);
        known := known[s.paneId := s.version];
      }
    }

    /** Works through a published set, at most one frame per pane. */
    method WriteSurfaceSignals(panes: map<string, Signal>) returns (written: map<string, Frame>)
      requires Keyed(panes)
      modifies this
      ensures known == KnownAfter(source, old(known), panes)
      ensures written == FramesFor(source, old(known), panes)
    {
      hide KnownAfter, FramesFor, FrameFor;
      NothingWritten(source, known, panes);
      written := map[];
      var rest := panes.Keys;
      while rest != {}
        invariant rest <= panes.Keys
        invariant known == KnownAfter(source, old(known), panes - rest)
        invariant written == FramesFor(source, old(known), panes - rest)
        decreases |rest|
      {
        var id :| id in rest;
        OneMoreSignal(source, old(known), panes, rest, id);
        rest := rest - {id};
        var frame := WriteSignal(panes[id]);
        if frame.Some? {
          written := written[id := frame.value];
        }
      }
      assert panes - rest == panes;
    }
  }
}
