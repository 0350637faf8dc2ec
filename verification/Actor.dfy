/** The session actor: pending events are drained in scheduler order, accepted by the core and logged in a
    bounded trace ring. */
module Actor {
  import opened Types
  import opened PaneUpdate
  import opened Session
  import opened Core
  import opened Scheduler

  function LastOf<T>(s: seq<T>, n: nat): seq<T> {
    if |s| <= n then s else s[|s| - n..]
  }

  lemma LastOfMore<T>(s: seq<T>, n: nat, x: T)
    requires n > 0
    ensures LastOf(s + [x], n) == LastOf(LastOf(s, n), n - 1) + [x]
  {
  }

  /** The event indices of a log are consecutive, up to saturation. */
  ghost predicate Numbered(log: seq<Accepted>, first: nat) {
    forall i | 0 <= i < |log| :: log[i].eventIndex == Min(first + i, U64_MAX)
  }

  lemma NumberedMore(log: seq<Accepted>, a: Accepted)
    requires Numbered(log, 0) && a.eventIndex == Min(|log|, U64_MAX)
    ensures Numbered(log + [a], 0)
  {
  }

  class SessionTraceRing {
    const cap: nat
    var records: seq<Record>

    constructor (cap: nat)
      ensures this.cap == cap && records == []
    {
      this.cap := cap;
      records := [];
    }

    method Push(r: Record)
      modifies this
      ensures records == if cap == 0 then old(records) else LastOf(old(records), cap - 1) + [r]
    {
      if cap == 0 {
        return;
      }
      while |records| >= cap
        invariant |records| <= |old(records)|
        invariant records == old(records)[|old(records)| - |records|..]
        invariant |records| >= cap - 1 || records == old(records)
      {
        records := records[1..];
      }
      records := records + [r];
    }
  }

  class SessionActor<E> {
    const core: SessionCore<E>
    const scheduler: DeterministicSessionScheduler
    const trace: SessionTraceRing
    ghost const start: Workspace
    // Every record so far.
    ghost var log: seq<Record>

    /** The core is what replaying the whole log gives, and the ring holds the last `cap` records of it. */
    ghost predicate Valid()
      reads this, core, core.session, scheduler, trace
    {
      && scheduler.Valid()
      && Replay(core.kind, Fresh(start), Log(log)) == Outcome(core.State(), log) && Numbered(Log(log), 0)
      && trace.records == LastOf(log, trace.cap)
    }

    constructor (w: Workspace, kind: Engine<E>, traceCap: nat)
      ensures Valid() && start == w && log == [] && trace.cap == traceCap && core.kind == kind
      ensures fresh(core) && fresh(core.session) && fresh(scheduler) && fresh(trace)
    {
      core := new SessionCore(w, kind);
      scheduler := new DeterministicSessionScheduler();
      trace := new SessionTraceRing(traceCap);
      start := w;
      log := [];
    }

    method Enqueue(p: Pending)
      requires Valid()
      modifies scheduler
      ensures Valid() && scheduler.queues == Pushed(old(scheduler.queues), p)
    {
      scheduler.Push(p);
    }

    // Accept one event and log it.
    method AcceptLogged(p: Pending) returns (r: Record)
      requires Valid()
      modifies `log, core, core.session, trace
      ensures Valid() && log == old(log) + [r]
      ensures (core.State(), r) == old(Accept(core.kind, core.State(), p))
    {
      hide Replay, Apply, Numbered;
      ReplayedAsAccepted(core.kind, core.State(), p);
      ReplayIndex(core.kind, Fresh(start), Log(log), 0);
      ghost var before := core.State();
      r := core.AcceptPending(p);
      ReplayMore(core.kind, Fresh(start), Log(log), r.accepted);
      LogMore(log, r);
      NumberedMore(Log(log), r.accepted);
      if trace.cap > 0 {
        LastOfMore(log, trace.cap, r);
      }
      trace.Push(r);
      log := log + [r];
    }

    method DrainNext() returns (next: Option<Record>)
      requires Valid()
      modifies `log, core, core.session, scheduler, trace
      ensures Valid()
      ensures next.None? <==> old(scheduler.queues) == map[]
      ensures next.None? ==>
        scheduler.queues == map[] && core.State() == old(core.State()) && log == old(log)
      ensures next.Some? ==>
        var served := old(Served(scheduler.queues));
        && (core.State(), next.value) == old(Accept(core.kind, core.State(), scheduler.queues[served][0]))
        && scheduler.queues == old(Popped(scheduler.queues, served))
        && log == old(log) + [next.value]
    {
      var popped := scheduler.PopNext();
      if popped.None? {
        return None;
      }
      var r := AcceptLogged(popped.value);
      next := Some(r);
    }

    method DrainReady() returns (records: seq<Record>)
      requires Valid()
      modifies `log, core, core.session, scheduler, trace
      ensures Valid() && scheduler.queues == map[]
      ensures Outcome(core.State(), records) == old(AcceptAll(core.kind, core.State(), Drain(scheduler.queues)))
      ensures log == old(log) + records
    {
      records := [];
      ghost var first := core.State();
      ghost var done: seq<Pending> := [];
      ghost var all := Drain(scheduler.queues);
      while true
        invariant Valid()
        invariant all == done + Drain(scheduler.queues)
        invariant Outcome(core.State(), records) == AcceptAll(core.kind, first, done)
        invariant log == old(log) + records
        decreases Total(scheduler.queues)
      {
        ghost var queues := scheduler.queues;
        ghost var before := core.State();
        var next := DrainNext();
        if next.None? {
          assert done + [] == done;
          assert all == done;
          break;
        }
        DrainProgress(core.kind, first, done, queues,
                      Outcome(before, records), Outcome(core.State(), records + [next.value]));
        Regroup(old(log), records, [next.value]);
        done := done + [queues[Served(queues)][0]];
        records := records + [next.value];
      }
    }
  }

  // One turn of the drain loop: the served event moves from the queues to the accepted ones.
  lemma DrainProgress<E>(
      k: Engine<E>, first: CoreState<E>, done: seq<Pending>, q: Queues, before: Outcome<E>, after: Outcome<E>)
    requires Filled(q) && q != map[] && before == AcceptAll(k, first, done)
    requires after == Continued(before, Accept(k, before.core, q[Served(q)][0]))
    ensures Filled(Popped(q, Served(q))) && Total(Popped(q, Served(q))) < Total(q)
    ensures done + Drain(q) == done + [q[Served(q)][0]] + Drain(Popped(q, Served(q)))
    ensures after == AcceptAll(k, first, done + [q[Served(q)][0]])
  {
    var p := q[Served(q)][0];
    DrainStep(q);
    PopShrinks(q, Served(q));
    AcceptMore(k, first, done, p);
    Regroup(done, [p], Drain(Popped(q, Served(q))));
  }

  lemma AcceptMore<E>(k: Engine<E>, c: CoreState<E>, ps: seq<Pending>, p: Pending)
    ensures AcceptAll(k, c, ps + [p]) == Continued(AcceptAll(k, c, ps), Accept(k, AcceptAll(k, c, ps).core, p))
  {
    assert (ps + [p])[..|ps|] == ps;
  }

  // ---------- replaying the ring ----------

  lemma {:induction false} ReplayLength<E>(k: Engine<E>, c: CoreState<E>, log: seq<Accepted>)
    ensures |Replay(k, c, log).records| == |log|
  {
    if log != [] {
      ReplayLength(k, c, log[..|log| - 1]);
    }
  }

  lemma {:induction false} ReplayIndex<E>(k: Engine<E>, c: CoreState<E>, log: seq<Accepted>, first: nat)
    requires Numbered(log, first)
    ensures Replay(k, c, log).core.nextIndex
            == if log == [] then c.nextIndex else Max(c.nextIndex, Min(first + |log|, U64_MAX))
  {
    if log != [] {
      ReplayIndex(k, c, log[..|log| - 1], first);
    }
  }

  lemma {:induction false} ReplaySplits<E>(k: Engine<E>, c: CoreState<E>, a: seq<Accepted>, b: seq<Accepted>)
    ensures Replay(k, c, a + b).core == Replay(k, Replay(k, c, a).core, b).core
  {
    hide ReplayOne;
    if b == [] {
      assert a + b == a;
    } else {
      var init, last := b[..|b| - 1], b[|b| - 1];
      ReplaySplits(k, c, a, init);
      assert b == init + [last];
      Regroup(a, init, [last]);
      ReplayMore(k, c, a + init, last);
      ReplayMore(k, Replay(k, c, a).core, init, last);
    }
  }

  lemma {:induction false} MachineIgnoresIndex<E>(k: Engine<E>, c: CoreState<E>, d: CoreState<E>, log: seq<Accepted>)
    requires c.machine == d.machine
    ensures Replay(k, c, log).core.machine == Replay(k, d, log).core.machine
  {
    if log != [] {
      MachineIgnoresIndex(k, c, d, log[..|log| - 1]);
    }
  }

  /** Replaying the ring reproduces the actor, core and records, if and only if no record was dropped. */
  lemma RingReplays<E>(a: SessionActor<E>)
    requires a.Valid()
    ensures Replay(a.core.kind, Fresh(a.start), Log(a.trace.records)) == Outcome(a.core.State(), a.log)
            <==> |a.log| <= a.trace.cap
  {
    ReplayLength(a.core.kind, Fresh(a.start), Log(a.trace.records));
  }

  /** The records that fell out of a ring of `n`. */
  function Dropped<T>(log: seq<T>, n: nat): seq<T> {
    log[..|log| - |LastOf(log, n)|]
  }

  lemma LogCut(records: seq<Record>, n: nat)
    ensures Log(records) == Log(Dropped(records, n)) + Log(LastOf(records, n))
  {
  }

  lemma KeptNumbers(log: seq<Record>, n: nat)
    requires Numbered(Log(log), 0)
    ensures Numbered(Log(LastOf(log, n)), |Dropped(log, n)|)
  {
    forall i | 0 <= i < |LastOf(log, n)|
      ensures Log(LastOf(log, n))[i].eventIndex == Min(|Dropped(log, n)| + i, U64_MAX)
    {
      assert LastOf(log, n)[i] == log[|Dropped(log, n)| + i];
      assert Log(log)[|Dropped(log, n)| + i] == log[|Dropped(log, n)| + i].accepted;
    }
  }

  lemma KeptReplays<E>(k: Engine<E>, start: Workspace, log: seq<Record>, n: nat)
    requires Numbered(Log(log), 0) && LastOf(log, n) != []
    ensures var all := Replay(k, Fresh(start), Log(log)).core;
            var kept := Replay(k, Fresh(start), Log(LastOf(log, n))).core;
            var cut := Replay(k, Fresh(start), Log(Dropped(log, n))).core;
            kept.nextIndex == all.nextIndex && (cut.machine == Fresh(start).machine ==> kept == all)
  {
    hide Replay, Numbered, LastOf, Dropped;
    var c := Fresh<E>(start);
    var dropped, kept := Log(Dropped(log, n)), Log(LastOf(log, n));
    LogCut(log, n);
    KeptNumbers(log, n);
    ReplayIndex(k, c, kept, |dropped|);
    ReplayIndex(k, c, Log(log), 0);
    ReplaySplits(k, c, dropped, kept);
    if Replay(k, c, dropped).core.machine == c.machine {
      MachineIgnoresIndex(k, c, Replay(k, c, dropped).core, kept);
    }
  }

  /** A ring with any record in it reproduces the next event index whatever was dropped, and the whole core
      when the dropped records led back to the machine at the start. */
  lemma RingReplaysCore<E>(a: SessionActor<E>)
    requires a.Valid() && a.trace.records != []
    ensures var ring := Replay(a.core.kind, Fresh(a.start), Log(a.trace.records)).core;
            var cut := Replay(a.core.kind, Fresh(a.start), Log(Dropped(a.log, a.trace.cap))).core;
            && ring.nextIndex == a.core.nextEventIndex
            && (cut.machine == Fresh(a.start).machine ==> ring == a.core.State())
  {
    hide Replay, Numbered, LastOf, Dropped;
    KeptReplays(a.core.kind, a.start, a.log, a.trace.cap);
  }

  /** A record whose event had no effect and did not reach an engine. */
  predicate Idle(r: Record) {
    r.effects == [] && !r.accepted.event.PaneOutput? && !r.accepted.event.CommitPaneResize?
  }

  lemma {:induction false} IdleLogChangesNothing<E>(k: Engine<E>, c: CoreState<E>, log: seq<Accepted>)
    requires forall r | r in Replay(k, c, log).records :: Idle(r)
    ensures Replay(k, c, log).core.machine == c.machine
  {
    hide Apply;
    if log != [] {
      var before, last := Replay(k, c, log[..|log| - 1]), log[|log| - 1];
      var r := ReplayOne(k, before.core, last);
      assert Replay(k, c, log).records == before.records + [r.1];
      assert forall x | x in before.records :: x in Replay(k, c, log).records;
      IdleLogChangesNothing(k, c, log[..|log| - 1]);
      assert r.1 in Replay(k, c, log).records;
      SilentStructure(k, before.core.machine, last.eventIndex, last.event);
    }
  }

  lemma SilentStructure<E>(k: Engine<E>, m: Machine<E>, i: u64, e: Event)
    requires Apply(k, m, i, e).effects == [] && !e.PaneOutput? && !e.CommitPaneResize?
    ensures Apply(k, m, i, e).machine == m
  {
    SilentEventChangesNothing(k, m, i, e);
  }

  lemma ReplayedPrefix<E>(k: Engine<E>, c: CoreState<E>, log: seq<Accepted>, n: nat)
    requires n <= |log|
    ensures |Replay(k, c, log).records| == |log| && Replay(k, c, log[..n]).records == Replay(k, c, log).records[..n]
    decreases |log| - n
  {
    hide ReplayOne;
    ReplayLength(k, c, log);
    if n < |log| {
      ReplayedPrefix(k, c, log, n + 1);
      ReplayLength(k, c, log[..n]);
      assert log[..n + 1][..n] == log[..n];
    } else {
      assert log[..n] == log;
    }
  }

  /** So a session is not lost when only idle events fell out of its ring. */
  lemma IdleDropsAreHarmless<E>(a: SessionActor<E>)
    requires a.Valid() && a.trace.records != [] && forall r | r in Dropped(a.log, a.trace.cap) :: Idle(r)
    ensures Replay(a.core.kind, Fresh(a.start), Log(a.trace.records)).core == a.core.State()
  {
    var k, c := a.core.kind, Fresh<E>(a.start);
    var dropped := Dropped(a.log, a.trace.cap);
    LogCut(a.log, a.trace.cap);
    ReplayedPrefix(k, c, Log(a.log), |dropped|);
    assert Log(a.log)[..|dropped|] == Log(dropped);
    IdleLogChangesNothing(k, c, Log(dropped));
    RingReplaysCore(a);
  }

  function TwoTabs(): seq<Accepted> {
    var host := Host("h", "sh", None);
    [Accepted(0, 0, "s", Control, AddTab("a", "", "pa", host)),
     Accepted(1, 0, "s", Control, AddTab("b", "", "pb", host))]
  }

  /** Otherwise the core can come back different: a ring of one record forgets the first of two added tabs. */
  lemma ShortRingDiverges<E>(k: Engine<E>)
    ensures Replay(k, Fresh(InitialWorkspace()), TwoTabs()).core
            != Replay(k, Fresh(InitialWorkspace()), LastOf(TwoTabs(), 1)).core
  {
    hide Replay;
    var c := Fresh<E>(InitialWorkspace());
    var log := TwoTabs();
    EmptyReplay(k, c);
    assert log == [log[0]] + [log[1]] && LastOf(log, 1) == [] + [log[1]] && [log[0]] == [] + [log[0]];
    ReplayMore(k, c, [], log[0]);
    ReplayMore(k, c, [log[0]], log[1]);
    ReplayMore(k, c, [], log[1]);
    var one := Replay(k, c, [log[0]]).core;
    var both := ReplayOne(k, one, log[1]).0.machine.workspace;
    var last := ReplayOne(k, c, log[1]).0.machine.workspace;
    AddedTabCount(k, c, log[0]);
    AddedTabCount(k, c, log[1]);
    assert one.machine.workspace.tabs[1].id == "a";
    AddedTabCount(k, one, log[1]);
  }

  lemma EmptyReplay<E>(k: Engine<E>, c: CoreState<E>)
    ensures Replay(k, c, []) == Outcome(c, [])
  {
  }

  // Adding tab and pane with new ids to a workspace with a tab in front.
  lemma AddedTabCount<E>(k: Engine<E>, c: CoreState<E>, a: Accepted)
    requires a.event.AddTab? && a.event.tabId != "" && a.event.paneId != ""
    requires TabIndex(c.machine.workspace.tabs, a.event.tabId).None?
    requires FindPane(c.machine.workspace, a.event.paneId).None?
    requires TabIndex(c.machine.workspace.tabs, c.machine.workspace.activeTabId).Some?
    ensures ReplayOne(k, c, a).0.machine.workspace.tabs[..|c.machine.workspace.tabs|] == c.machine.workspace.tabs
    ensures |ReplayOne(k, c, a).0.machine.workspace.tabs| == |c.machine.workspace.tabs| + 1
  {
  }
}
