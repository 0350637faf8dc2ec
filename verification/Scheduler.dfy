/** The deterministic scheduler: one queue per source, the next event is the head with the smallest
    (lane priority, source id). */
module Scheduler {
  import opened Types
  import opened Core

  type Queues = map<string, seq<Pending>>

  // ---------- the order ----------

  function Priority(l: Lane): nat {
    match l
    case Lifecycle => 0
    case Control => 1
    case Client => 2
    case PaneLane => 3
    case Timer => 4
  }

  predicate StringLess(a: string, b: string) {
    b != "" && (a == "" || a[0] < b[0] || (a[0] == b[0] && StringLess(a[1..], b[1..])))
  }

  lemma {:induction false} StringOrder(a: string, b: string)
    ensures a == b || StringLess(a, b) || StringLess(b, a)
    ensures StringLess(a, b) ==> a != b && !StringLess(b, a)
  {
    if a != "" && b != "" {
      StringOrder(a[1..], b[1..]);
      assert a == [a[0]] + a[1..] && b == [b[0]] + b[1..];
    }
  }

  lemma {:induction false} StringTrans(a: string, b: string, c: string)
    requires StringLess(a, b) && StringLess(b, c)
    ensures StringLess(a, c)
  {
    if a != "" && a[0] == b[0] == c[0] {
      StringTrans(a[1..], b[1..], c[1..]);
    }
  }

  predicate Before(a: Pending, b: Pending) {
    || Priority(a.lane) < Priority(b.lane)
    || (a.lane == b.lane && StringLess(a.sourceId, b.sourceId))
  }

  predicate NotAfter(a: Pending, b: Pending) {
    Before(a, b) || (a.lane == b.lane && a.sourceId == b.sourceId)
  }

  lemma BeforeOrder(a: Pending, b: Pending)
    ensures Before(a, b) || NotAfter(b, a)
    ensures Before(a, b) ==> !NotAfter(b, a)
  {
    StringOrder(a.sourceId, b.sourceId);
  }

  lemma BeforeTrans(a: Pending, b: Pending, c: Pending)
    requires Before(a, b) && Before(b, c)
    ensures Before(a, c)
  {
    if a.lane == b.lane == c.lane {
      StringTrans(a.sourceId, b.sourceId, c.sourceId);
    }
  }

  // ---------- the queues ----------

  /** No queue is empty, and every event waits in the queue of its source. */
  ghost predicate Filled(q: Queues) {
    forall s | s in q :: q[s] != [] && forall p | p in q[s] :: p.sourceId == s
  }

  function Pushed(q: Queues, p: Pending): Queues {
    q[p.sourceId := (if p.sourceId in q then q[p.sourceId] else []) + [p]]
  }

  function Popped(q: Queues, s: string): Queues
    requires s in q && q[s] != []
  {
    if |q[s]| == 1 then q - {s} else q[s := q[s][1..]]
  }

  // The source `pop_next` serves.
  ghost predicate Leads(q: Queues, s: string)
    requires Filled(q)
  {
    s in q && forall t | t in q && t != s :: Before(q[s][0], q[t][0])
  }

  lemma ServedUnique(q: Queues, s: string, t: string)
    requires Filled(q) && Leads(q, s) && Leads(q, t)
    ensures s == t
  {
    if s != t {
      BeforeOrder(q[s][0], q[t][0]);
    }
  }

  lemma {:induction false} SomeServed(q: Queues)
    requires Filled(q) && q != map[]
    ensures exists s :: Leads(q, s)
    decreases |q|
  {
    var s :| s in q;
    var rest := q - {s};
    assert forall t | t in q && t != s :: t in rest;
    if rest == map[] {
      assert Leads(q, s);
    } else {
      SmallerMap(q, s);
      SomeServed(rest);
      var t :| Leads(rest, t);
      BeforeOrder(q[s][0], q[t][0]);
      if Before(q[s][0], q[t][0]) {
        forall r | r in q && r != s ensures Before(q[s][0], q[r][0]) {
          if r != t {
            assert r in rest;
            BeforeTrans(q[s][0], q[t][0], q[r][0]);
          }
        }
        assert Leads(q, s);
      } else {
        assert q[s][0] in q[s] && q[t][0] in q[t];
        forall r | r in q && r != t ensures Before(q[t][0], q[r][0]) {
          if r != s {
            assert r in rest && rest[r] == q[r] && rest[t] == q[t];
          }
        }
        assert Leads(q, t);
      }
    }
  }

  lemma SmallerSet<T>(a: set<T>, b: set<T>)
    requires a < b
    ensures |a| < |b|
  {
    var x :| x in b && x !in a;
    assert a <= b - {x};
    SubsetSize(a, b - {x});
  }

  lemma {:induction false} SubsetSize<T>(a: set<T>, b: set<T>)
    requires a <= b
    ensures |a| <= |b|
  {
    if a != {} {
      var x :| x in a;
      SubsetSize(a - {x}, b - {x});
    }
  }

  ghost function Served(q: Queues): (s: string)
    requires Filled(q) && q != map[]
    ensures Leads(q, s)
  {
    SomeServed(q);
    var s :| Leads(q, s);
    s
  }

  // Some source's next event is in the lane.
  ghost predicate Waits(q: Queues, lane: Lane)
    requires Filled(q)
  {
    exists s | s in q :: q[s][0].lane == lane
  }

  // `a` is a proper prefix of `b`, or smaller at the first place where they differ.
  ghost predicate Alphabetical(a: string, b: string) {
    exists n: nat | n <= |a| && n < |b| :: a[..n] == b[..n] && (n == |a| || a[n] < b[n])
  }

  lemma AlphabeticalTail(a: string, b: string)
    requires a != "" && b != ""
    ensures Alphabetical(a, b) <==> a[0] < b[0] || (a[0] == b[0] && Alphabetical(a[1..], b[1..]))
  {
    if Alphabetical(a, b) {
      var n: nat :| n <= |a| && n < |b| && a[..n] == b[..n] && (n == |a| || a[n] < b[n]);
      if n > 0 {
        assert a[0] == a[..n][0] && b[0] == b[..n][0];
        assert a[1..][..n - 1] == a[..n][1..] && b[1..][..n - 1] == b[..n][1..];
      }
    }
    if a[0] < b[0] {
      assert a[..0] == b[..0];
    }
    if a[0] == b[0] && Alphabetical(a[1..], b[1..]) {
      var n: nat :| n <= |a[1..]| && n < |b[1..]| && a[1..][..n] == b[1..][..n]
                    && (n == |a[1..]| || a[1..][n] < b[1..][n]);
      assert a[..n + 1] == [a[0]] + a[1..][..n] && b[..n + 1] == [b[0]] + b[1..][..n];
    }
  }

  lemma {:induction false} StringLessIsAlphabetical(a: string, b: string)
    ensures StringLess(a, b) <==> Alphabetical(a, b)
  {
    if a == "" {
      assert b != "" ==> a[..0] == b[..0];
    } else if b != "" {
      AlphabeticalTail(a, b);
      StringLessIsAlphabetical(a[1..], b[1..]);
    }
  }

  /** Lifecycle events go first, then control, client, pane and timer events; within a lane the source whose id
      comes first in alphabetical order. */
  lemma LanesServedInOrder(q: Queues)
    requires Filled(q) && q != map[]
    ensures var head := q[Served(q)][0];
            && (Waits(q, Lifecycle) ==> head.lane == Lifecycle)
            && (!Waits(q, Lifecycle) && Waits(q, Control) ==> head.lane == Control)
            && (!Waits(q, Lifecycle) && !Waits(q, Control) && Waits(q, Client) ==> head.lane == Client)
            && (head.lane == PaneLane ==> !Waits(q, Lifecycle) && !Waits(q, Control) && !Waits(q, Client))
            && (head.lane == Timer ==> forall s | s in q :: q[s][0].lane == Timer)
            && (forall s | s in q && s != Served(q) && q[s][0].lane == head.lane :: Alphabetical(Served(q), s))
  {
    var best := Served(q);
    forall s | s in q && s != best ensures Before(q[best][0], q[s][0]) {
    }
    forall s | s in q && s != best && q[s][0].lane == q[best][0].lane ensures Alphabetical(best, s) {
      assert q[s][0] in q[s] && q[best][0] in q[best];
      StringLessIsAlphabetical(best, s);
    }
  }

  class DeterministicSessionScheduler {
    var queues: Queues

    ghost predicate Valid()
      reads this
    {
      Filled(queues)
    }

    constructor ()
      ensures Valid() && queues == map[]
    {
      queues := map[];
    }

    method Push(p: Pending)
      requires Valid()
      modifies this
      ensures Valid() && queues == Pushed(old(queues), p)
    {
      var queue := if p.sourceId in queues then queues[p.sourceId] else [];
      queues := queues[p.sourceId := queue + [p]];
    }

    method NextSource() returns (best: Option<string>)
      requires Valid()
      ensures best.None? <==> queues == map[]
      ensures best.Some? ==> Leads(queues, best.value)
    {
      best := None;
      var rest := queues.Keys;
      while rest != {}
        invariant rest <= queues.Keys
        invariant best.None? <==> rest == queues.Keys
        invariant best.Some? ==>
          && best.value in queues && best.value !in rest
          && forall t | t in queues && t !in rest && t != best.value :: Before(queues[best.value][0], queues[t][0])
        decreases |rest|
      {
        var s :| s in rest;
        assert queues[s][0] in queues[s];
        if best.None? {
          best := Some(s);
        } else {
          var b := best.value;
          assert queues[b][0] in queues[b];
          BeforeOrder(queues[s][0], queues[b][0]);
          if Before(queues[s][0], queues[b][0]) {
            forall t | t in queues && t !in rest - {s} && t != s ensures Before(queues[s][0], queues[t][0]) {
              if t != b {
                BeforeTrans(queues[s][0], queues[b][0], queues[t][0]);
              }
            }
            best := Some(s);
          }
        }
        rest := rest - {s};
      }
    }

    method PopNext() returns (next: Option<Pending>)
      requires Valid()
      modifies this
      ensures Valid()
      ensures next.None? <==> old(queues) == map[]
      ensures next.None? ==> queues == map[]
      ensures next.Some? ==> next.value == old(queues)[Served(old(queues))][0]
                             && queues == Popped(old(queues), Served(old(queues)))
    {
      var source := NextSource();
      if source.None? {
        return None;
      }
      var s := source.value;
      ServedUnique(queues, s, Served(queues));
      next := Some(queues[s][0]);
      if |queues[s]| == 1 {
        queues := queues - {s};
      } else {
        queues := queues[s := queues[s][1..]];
      }
    }
  }

  // ---------- draining ----------

  ghost function Total(q: Queues): nat
    decreases |q|
  {
    if q == map[] then 0
    else
      var s :| s in q;
      SmallerMap(q, s);
      |q[s]| + Total(q - {s})
  }

  lemma SmallerMap(q: Queues, s: string)
    requires s in q
    ensures |q - {s}| < |q|
  {
    assert (q - {s}).Keys == q.Keys - {s};
    SmallerSet((q - {s}).Keys, q.Keys);
    assert |(q - {s}).Keys| == |q - {s}| && |q.Keys| == |q|;
  }

  lemma {:induction false} TotalWithout(q: Queues, s: string)
    requires s in q
    ensures Total(q) == |q[s]| + Total(q - {s})
    decreases |q|
  {
    var t :| t in q && Total(q) == |q[t]| + Total(q - {t});
    if t != s {
      SmallerMap(q, t);
      SmallerMap(q, s);
      TotalWithout(q - {t}, s);
      TotalWithout(q - {s}, t);
      assert q - {t} - {s} == q - {s} - {t};
    }
  }

  lemma PopShrinks(q: Queues, s: string)
    requires s in q && q[s] != []
    ensures Total(Popped(q, s)) + 1 == Total(q)
  {
    TotalWithout(q, s);
    if |q[s]| > 1 {
      TotalWithout(Popped(q, s), s);
      assert Popped(q, s) - {s} == q - {s};
    }
  }

  /** Everything `pop_next` returns until the scheduler is empty. */
  ghost function Drain(q: Queues): seq<Pending>
    requires Filled(q)
    decreases Total(q)
  {
    if q == map[] then []
    else
      PopShrinks(q, Served(q));
      [q[Served(q)][0]] + Drain(Popped(q, Served(q)))
  }

  function BySource(ps: seq<Pending>, s: string): seq<Pending> {
    if ps == [] then []
    else BySource(ps[..|ps| - 1], s) + (if ps[|ps| - 1].sourceId == s then [ps[|ps| - 1]] else [])
  }

  function Queue(q: Queues, s: string): seq<Pending> {
    if s in q then q[s] else []
  }

  lemma {:induction false} BySourceFirst(p: Pending, ps: seq<Pending>, s: string)
    ensures BySource([p] + ps, s) == (if p.sourceId == s then [p] else []) + BySource(ps, s)
  {
    if ps == [] {
      assert [p] + ps == [p] && [p][..0] == [];
    } else {
      BySourceFirst(p, ps[..|ps| - 1], s);
      assert ([p] + ps)[..|ps|] == [p] + ps[..|ps| - 1];
    }
  }

  lemma PoppedQueue(q: Queues, l: string, s: string)
    requires Filled(q) && l in q
    ensures Filled(Popped(q, l)) && q[l][0].sourceId == l
    ensures Queue(q, s) == (if s == l then [q[l][0]] else []) + Queue(Popped(q, l), s)
  {
    assert q[l][0] in q[l] && forall p | p in q[l][1..] :: p in q[l];
  }

  lemma DrainStep(q: Queues)
    requires Filled(q) && q != map[]
    ensures Filled(Popped(q, Served(q)))
    ensures Drain(q) == [q[Served(q)][0]] + Drain(Popped(q, Served(q)))
  {
    PoppedQueue(q, Served(q), "");
    PopShrinks(q, Served(q));
  }

  /** Draining ends after as many events as were waiting, and keeps every source's order. */
  lemma {:induction false} DrainKeepsSources(q: Queues, s: string)
    requires Filled(q)
    ensures BySource(Drain(q), s) == Queue(q, s)
    ensures |Drain(q)| == Total(q)
    decreases Total(q)
  {
    if q != map[] {
      var l := Served(q);
      DrainStep(q);
      PopShrinks(q, l);
      PoppedQueue(q, l, s);
      DrainKeepsSources(Popped(q, l), s);
      BySourceFirst(q[l][0], Drain(Popped(q, l)), s);
    }
  }

  // ---------- from pushes to pops ----------

  function AllPushed(ps: seq<Pending>): Queues {
    if ps == [] then map[] else Pushed(AllPushed(ps[..|ps| - 1]), ps[|ps| - 1])
  }

  lemma {:induction false} PushedBySource(ps: seq<Pending>)
    ensures Filled(AllPushed(ps))
    ensures forall s :: Queue(AllPushed(ps), s) == BySource(ps, s)
    ensures forall s :: s in AllPushed(ps) <==> BySource(ps, s) != []
  {
    if ps != [] {
      PushedBySource(ps[..|ps| - 1]);
      forall s ensures Queue(AllPushed(ps), s) == BySource(ps, s) && (s in AllPushed(ps) <==> BySource(ps, s) != []) {
        assert Queue(AllPushed(ps[..|ps| - 1]), s) == BySource(ps[..|ps| - 1], s);
      }
    }
  }

  lemma {:induction false} CountBySource(ps: seq<Pending>, p: Pending)
    ensures multiset(ps)[p] == multiset(BySource(ps, p.sourceId))[p]
  {
    if ps != [] {
      CountBySource(ps[..|ps| - 1], p);
      assert ps == ps[..|ps| - 1] + [ps[|ps| - 1]];
    }
  }

  /** Popping until empty returns exactly what was pushed, every source in its own order. */
  lemma DrainIsPermutation(ps: seq<Pending>)
    ensures Filled(AllPushed(ps))
    ensures multiset(Drain(AllPushed(ps))) == multiset(ps)
    ensures forall s :: BySource(Drain(AllPushed(ps)), s) == BySource(ps, s)
  {
    PushedBySource(ps);
    var drained := Drain(AllPushed(ps));
    forall s ensures BySource(drained, s) == BySource(ps, s) {
      DrainKeepsSources(AllPushed(ps), s);
      assert Queue(AllPushed(ps), s) == BySource(ps, s);
    }
    forall p ensures multiset(drained)[p] == multiset(ps)[p] {
      CountBySource(drained, p);
      CountBySource(ps, p);
    }
  }

  lemma SameQueues(a: Queues, b: Queues)
    requires Filled(a) && Filled(b) && forall s :: Queue(a, s) == Queue(b, s)
    ensures a == b
  {
    forall s ensures s in a <==> s in b {
      assert Queue(a, s) == Queue(b, s);
    }
    forall s | s in a ensures a[s] == b[s] {
      assert Queue(a, s) == Queue(b, s);
    }
  }

  /** How pushes of different sources interleaved makes no difference. */
  lemma InterleavingIrrelevant(ps: seq<Pending>, qs: seq<Pending>)
    requires forall s :: BySource(ps, s) == BySource(qs, s)
    ensures AllPushed(ps) == AllPushed(qs)
  {
    PushedBySource(ps);
    PushedBySource(qs);
    forall s ensures Queue(AllPushed(ps), s) == Queue(AllPushed(qs), s) {
      assert Queue(AllPushed(ps), s) == BySource(ps, s);
      assert Queue(AllPushed(qs), s) == BySource(qs, s);
    }
    SameQueues(AllPushed(ps), AllPushed(qs));
  }

  // ---------- one lane per source: a stable sort ----------

  ghost predicate OneLane(ps: seq<Pending>) {
    forall a, b | a in ps && b in ps && a.sourceId == b.sourceId :: a.lane == b.lane
  }

  ghost predicate Ordered(ps: seq<Pending>) {
    forall i, j | 0 <= i < j < |ps| :: NotAfter(ps[i], ps[j])
  }

  function Insert(ps: seq<Pending>, p: Pending): seq<Pending> {
    if ps == [] then [p]
    else if Before(p, ps[0]) then [p] + ps
    else [ps[0]] + Insert(ps[1..], p)
  }

  /** Insertion sort by (lane priority, source id); equal keys keep their order. */
  function StableSort(ps: seq<Pending>): seq<Pending> {
    if ps == [] then [] else Insert(StableSort(ps[..|ps| - 1]), ps[|ps| - 1])
  }

  lemma NotAfterTrans(a: Pending, b: Pending, c: Pending)
    requires NotAfter(a, b) && NotAfter(b, c)
    ensures NotAfter(a, c)
    ensures Before(a, b) ==> Before(a, c)
  {
    if Before(a, b) && Before(b, c) {
      BeforeTrans(a, b, c);
    }
  }

  lemma {:induction false} InsertMembers(ps: seq<Pending>, p: Pending, x: Pending)
    ensures x in Insert(ps, p) <==> x == p || x in ps
  {
    if ps != [] && !Before(p, ps[0]) {
      InsertMembers(ps[1..], p, x);
      assert x in ps <==> x == ps[0] || x in ps[1..];
    }
  }

  lemma OrderedCons(p: Pending, ps: seq<Pending>)
    requires Ordered(ps) && forall x | x in ps :: NotAfter(p, x)
    ensures Ordered([p] + ps)
  {
  }

  lemma {:induction false} InsertOrdered(ps: seq<Pending>, p: Pending)
    requires Ordered(ps)
    ensures Ordered(Insert(ps, p))
  {
    if ps != [] {
      if Before(p, ps[0]) {
        forall x | x in ps ensures NotAfter(p, x) {
          var i :| 0 <= i < |ps| && ps[i] == x;
          if i > 0 {
            NotAfterTrans(p, ps[0], x);
          }
        }
        OrderedCons(p, ps);
      } else {
        InsertOrdered(ps[1..], p);
        BeforeOrder(p, ps[0]);
        forall x | x in Insert(ps[1..], p) ensures NotAfter(ps[0], x) {
          InsertMembers(ps[1..], p, x);
        }
        OrderedCons(ps[0], Insert(ps[1..], p));
      }
    }
  }

  lemma {:induction false} NoneOfSource(ps: seq<Pending>, s: string)
    requires forall x | x in ps :: x.sourceId != s
    ensures BySource(ps, s) == []
  {
    if ps != [] {
      assert ps[|ps| - 1] in ps && forall x | x in ps[..|ps| - 1] :: x in ps;
      NoneOfSource(ps[..|ps| - 1], s);
    }
  }

  // An event that comes before a whole ordered sequence comes from another source than all of it.
  lemma BeforeAll(ps: seq<Pending>, p: Pending)
    requires Ordered(ps) && ps != [] && Before(p, ps[0])
    requires forall x | x in ps && x.sourceId == p.sourceId :: x.lane == p.lane
    ensures BySource(ps, p.sourceId) == []
  {
    forall x | x in ps ensures x.sourceId != p.sourceId {
      var i :| 0 <= i < |ps| && ps[i] == x;
      if i > 0 {
        NotAfterTrans(p, ps[0], x);
      }
      StringOrder(p.sourceId, x.sourceId);
    }
    NoneOfSource(ps, p.sourceId);
  }

  lemma {:induction false} InsertKeepsSources(ps: seq<Pending>, p: Pending, s: string)
    requires Ordered(ps) && forall x | x in ps && x.sourceId == p.sourceId :: x.lane == p.lane
    ensures BySource(Insert(ps, p), s) == BySource(ps, s) + (if p.sourceId == s then [p] else [])
  {
    if ps == [] {
      assert [p][..0] == [];
    } else if Before(p, ps[0]) {
      BySourceFirst(p, ps, s);
      BeforeAll(ps, p);
    } else {
      InsertKeepsSources(ps[1..], p, s);
      BySourceFirst(ps[0], ps[1..], s);
      BySourceFirst(ps[0], Insert(ps[1..], p), s);
      assert ps == [ps[0]] + ps[1..];
      Regroup(if ps[0].sourceId == s then [ps[0]] else [], BySource(ps[1..], s), if p.sourceId == s then [p] else []);
    }
  }

  lemma {:induction false} SortIsStable(ps: seq<Pending>)
    requires OneLane(ps)
    ensures Ordered(StableSort(ps))
    ensures forall x :: x in StableSort(ps) <==> x in ps
    ensures forall s :: BySource(StableSort(ps), s) == BySource(ps, s)
  {
    if ps != [] {
      var before, p := ps[..|ps| - 1], ps[|ps| - 1];
      assert ps == before + [p];
      SortIsStable(before);
      InsertOrdered(StableSort(before), p);
      forall s ensures BySource(StableSort(ps), s) == BySource(ps, s) {
        InsertKeepsSources(StableSort(before), p, s);
      }
      forall x ensures x in StableSort(ps) <==> x in ps {
        InsertMembers(StableSort(before), p, x);
      }
    }
  }

  lemma {:induction false} SourceMember(ps: seq<Pending>, x: Pending, s: string)
    ensures x in BySource(ps, s) <==> x in ps && x.sourceId == s
  {
    if ps != [] {
      SourceMember(ps[..|ps| - 1], x, s);
      assert ps == ps[..|ps| - 1] + [ps[|ps| - 1]];
    }
  }

  lemma SameMembers(ps: seq<Pending>, qs: seq<Pending>, x: Pending)
    requires forall s :: BySource(ps, s) == BySource(qs, s)
    ensures x in ps <==> x in qs
  {
    SourceMember(ps, x, x.sourceId);
    SourceMember(qs, x, x.sourceId);
    assert BySource(ps, x.sourceId) == BySource(qs, x.sourceId);
  }

  lemma SameFirst(ps: seq<Pending>, qs: seq<Pending>)
    requires Ordered(ps) && Ordered(qs) && ps != [] && qs != []
    requires forall s :: BySource(ps, s) == BySource(qs, s)
    ensures ps[0] == qs[0]
  {
    SameMembers(ps, qs, ps[0]);
    SameMembers(ps, qs, qs[0]);
    BeforeOrder(ps[0], qs[0]);
    BeforeOrder(qs[0], ps[0]);
    var s := ps[0].sourceId;
    assert ps == [ps[0]] + ps[1..] && qs == [qs[0]] + qs[1..];
    BySourceFirst(ps[0], ps[1..], s);
    BySourceFirst(qs[0], qs[1..], s);
    assert BySource(ps, s)[0] == ps[0] && BySource(qs, s)[0] == qs[0];
  }

  lemma Cancel<T>(a: seq<T>, x: seq<T>, y: seq<T>)
    requires a + x == a + y
    ensures x == y
  {
    assert (a + x)[|a|..] == x && (a + y)[|a|..] == y;
  }

  // Order and the order of every source determine a sequence.
  lemma {:induction false} OrderedUnique(ps: seq<Pending>, qs: seq<Pending>)
    requires Ordered(ps) && Ordered(qs) && forall s :: BySource(ps, s) == BySource(qs, s)
    ensures ps == qs
  {
    if ps == [] {
      if qs != [] {
        SameMembers(ps, qs, qs[0]);
      }
    } else {
      SameMembers(ps, qs, ps[0]);
      SameFirst(ps, qs);
      assert ps == [ps[0]] + ps[1..] && qs == [qs[0]] + qs[1..];
      forall s ensures BySource(ps[1..], s) == BySource(qs[1..], s) {
        BySourceFirst(ps[0], ps[1..], s);
        BySourceFirst(qs[0], qs[1..], s);
        assert BySource(ps, s) == BySource(qs, s);
        Cancel(if ps[0].sourceId == s then [ps[0]] else [], BySource(ps[1..], s), BySource(qs[1..], s));
      }
      OrderedUnique(ps[1..], qs[1..]);
    }
  }

  ghost predicate QueuesOneLane(q: Queues) {
    forall s, p | s in q && p in q[s] :: q[s] != [] && p.lane == q[s][0].lane
  }

  lemma PoppedOneLane(q: Queues, l: string)
    requires Filled(q) && QueuesOneLane(q) && l in q
    ensures QueuesOneLane(Popped(q, l))
  {
    assert q[l][0] in q[l] && forall p | p in q[l][1..] :: p in q[l];
    assert |q[l]| > 1 ==> q[l][1] in q[l];
  }

  // What is drained later does not come before the first event.
  lemma LaterNotBefore(q: Queues, x: Pending)
    requires Filled(q) && QueuesOneLane(q) && q != map[] && Filled(Popped(q, Served(q)))
    requires x in Drain(Popped(q, Served(q)))
    ensures NotAfter(q[Served(q)][0], x)
  {
    var l, s := Served(q), x.sourceId;
    var rest := Popped(q, l);
    DrainKeepsSources(rest, s);
    SourceMember(Drain(rest), x, s);
    PoppedQueue(q, l, s);
    assert x in Queue(rest, s);
    assert x in q[s] && q[s][0] in q[s] && q[l][0] in q[l];
  }

  lemma {:induction false} DrainOrdered(q: Queues)
    requires Filled(q) && QueuesOneLane(q)
    ensures Ordered(Drain(q))
    decreases Total(q)
  {
    if q != map[] {
      var l := Served(q);
      DrainStep(q);
      PopShrinks(q, l);
      PoppedOneLane(q, l);
      DrainOrdered(Popped(q, l));
      forall x | x in Drain(Popped(q, l)) ensures NotAfter(q[l][0], x) {
        LaterNotBefore(q, x);
      }
      OrderedCons(q[l][0], Drain(Popped(q, l)));
    }
  }

  lemma OneLaneQueues(ps: seq<Pending>)
    requires OneLane(ps)
    ensures Filled(AllPushed(ps)) && QueuesOneLane(AllPushed(ps))
  {
    PushedBySource(ps);
    var q: Queues := AllPushed(ps);
    forall s: string, p: Pending | s in q && p in q[s] ensures p.lane == q[s][0].lane {
      assert Queue(q, s) == BySource(ps, s);
      SourceMember(ps, p, s);
      SourceMember(ps, q[s][0], s);
      assert q[s][0] in BySource(ps, s);
    }
  }

  /** With one lane per source, draining is the stable sort by (lane priority, source id). */
  lemma DrainIsStableSort(ps: seq<Pending>)
    requires OneLane(ps)
    ensures Filled(AllPushed(ps)) && Drain(AllPushed(ps)) == StableSort(ps)
  {
    DrainIsPermutation(ps);
    OneLaneQueues(ps);
    DrainOrdered(AllPushed(ps));
    SortIsStable(ps);
    OrderedUnique(Drain(AllPushed(ps)), StableSort(ps));
  }
}
