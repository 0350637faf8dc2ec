/** The byte budget of a client's reliable queue: producers reserve bytes with a load and a weak compare and
    exchange, send, and give the bytes back when the send fails; the writer gives them back after receiving.
    All atomic steps of any number of producers and of the receiver interleave freely. */
module ByteAccounting {
  import opened Types

  datatype Phase =
    | Idle
    | Loaded(len: u64, seen: u64)   // knows some value of the counter, about to compare and exchange
    | Reserved(len: u64)            // counted its bytes, about to send
    | Undoing(len: u64)             // the send failed, about to give the bytes back

  datatype State = State(
    counter: u64, producers: seq<Phase>, queue: seq<u64>, receiving: Option<u64>, closed: bool,
    sent: seq<u64>, received: seq<u64>, dropped: seq<u64>)

  datatype Action =
    | Load(t: nat, len: u64, seen: u64)
    | Reject(t: nat)
    | Exchange(t: nat)
    | ExchangeFails(t: nat)
    | Send(t: nat)
    | SendFails(t: nat)
    | Undo(t: nat)
    | Receive
    | Release
    | DropReceiver

  datatype Caps = Caps(frames: nat, bytes: u64)

  // `fetch_sub` wraps around.
  function WrapSub(a: u64, b: u64): u64 {
    if b <= a then a - b else a - b + U64_MAX + 1
  }

  predicate TooMuch(caps: Caps, seen: u64, len: u64) {
    seen + len > U64_MAX || seen + len > caps.bytes
  }

  predicate Enabled(s: State, caps: Caps, a: Action) {
    match a
    case Load(t, _, _) => t < |s.producers| && s.producers[t].Idle?
    case Reject(t) =>
      t < |s.producers| && s.producers[t].Loaded? && TooMuch(caps, s.producers[t].seen, s.producers[t].len)
    case Exchange(t) =>
      && t < |s.producers| && s.producers[t].Loaded? && !TooMuch(caps, s.producers[t].seen, s.producers[t].len)
      && s.producers[t].seen == s.counter
    case ExchangeFails(t) =>
      t < |s.producers| && s.producers[t].Loaded? && !TooMuch(caps, s.producers[t].seen, s.producers[t].len)
    case Send(t) => t < |s.producers| && s.producers[t].Reserved? && !s.closed && |s.queue| < caps.frames
    case SendFails(t) => t < |s.producers| && s.producers[t].Reserved? && (s.closed || |s.queue| >= caps.frames)
    case Undo(t) => t < |s.producers| && s.producers[t].Undoing?
    case Receive => !s.closed && s.queue != [] && s.receiving.None?
    case Release => s.receiving.Some?
    case DropReceiver => !s.closed && s.receiving.None?
  }

  /** One atomic step. A relaxed load may see any value; a failing exchange sees the present one. */
  function Do(s: State, caps: Caps, a: Action): State
    requires Enabled(s, caps, a)
  {
    match a
    case Load(t, len, seen) => s.(producers := s.producers[t := Loaded(len, seen)])
    case Reject(t) => s.(producers := s.producers[t := Idle])
    case Exchange(t) =>
      s.(counter := s.producers[t].seen + s.producers[t].len,
         producers := s.producers[t := Reserved(s.producers[t].len)])
    case ExchangeFails(t) => s.(producers := s.producers[t := Loaded(s.producers[t].len, s.counter)])
    case Send(t) =>
      s.(queue := s.queue + [s.producers[t].len], sent := s.sent + [s.producers[t].len],
         producers := s.producers[t := Idle])
    case SendFails(t) => s.(producers := s.producers[t := Undoing(s.producers[t].len)])
    case Undo(t) =>
      s.(counter := WrapSub(s.counter, s.producers[t].len), producers := s.producers[t := Idle])
    case Receive =>
      s.(queue := s.queue[1..], receiving := Some(s.queue[0]), received := s.received + [s.queue[0]])
    case Release => s.(counter := WrapSub(s.counter, s.receiving.value), receiving := None)
    case DropReceiver => s.(closed := true, queue := [], dropped := s.queue)
  }

  // ---------- what the counter counts ----------

  function Bytes(frames: seq<u64>): nat {
    if frames == [] then 0 else frames[0] + Bytes(frames[1..])
  }

  function Held(p: Phase): nat {
    if p.Reserved? || p.Undoing? then p.len else 0
  }

  function AllHeld(ps: seq<Phase>): nat {
    if ps == [] then 0 else Held(ps[0]) + AllHeld(ps[1..])
  }

  function InFlight(s: State): nat {
    if s.receiving.Some? then s.receiving.value else 0
  }

  /** The counter is exactly the bytes queued, reserved, and received but not yet released (plus what a dropped
      receiver took with it), and stays within the cap. No frame is lost or reordered before the drop. */
  ghost predicate Inv(s: State, caps: Caps) {
    && s.counter == Bytes(s.queue) + AllHeld(s.producers) + InFlight(s) + Bytes(s.dropped)
    && s.counter <= caps.bytes
    && |s.queue| <= caps.frames
    && s.sent == s.received + s.queue + s.dropped
    && (!s.closed ==> s.dropped == [])
  }

  lemma {:induction false} BytesJoin(a: seq<u64>, b: seq<u64>)
    ensures Bytes(a + b) == Bytes(a) + Bytes(b)
  {
    if a == [] {
      assert a + b == b;
    } else {
      BytesJoin(a[1..], b);
      assert (a + b)[1..] == a[1..] + b;
    }
  }

  lemma {:induction false} HeldAt(ps: seq<Phase>, t: nat, p: Phase)
    requires t < |ps|
    ensures AllHeld(ps[t := p]) == AllHeld(ps) - Held(ps[t]) + Held(p)
    ensures Held(ps[t]) <= AllHeld(ps)
  {
    if t == 0 {
      assert ps[t := p][1..] == ps[1..];
    } else {
      HeldAt(ps[1..], t - 1, p);
      assert ps[t := p][1..] == ps[1..][t - 1 := p];
    }
  }

  // Steps that only change a producer's phase and what it holds.
  lemma PhaseStep(s: State, caps: Caps, t: nat, p: Phase, counter: u64)
    requires Inv(s, caps) && t < |s.producers| && counter <= caps.bytes
    requires counter == s.counter - Held(s.producers[t]) + Held(p)
    ensures Inv(s.(producers := s.producers[t := p], counter := counter), caps)
  {
    HeldAt(s.producers, t, p);
  }

  lemma SendStep(s: State, caps: Caps, t: nat)
    requires Inv(s, caps) && Enabled(s, caps, Send(t))
    ensures Inv(Do(s, caps, Send(t)), caps)
  {
    var len := s.producers[t].len;
    HeldAt(s.producers, t, Idle);
    BytesJoin(s.queue, [len]);
    SingleBytes(len);
    assert s.received + s.queue + [] + [len] == s.received + (s.queue + [len]) + [];
  }

  lemma ReceiveSteps(s: State, caps: Caps, a: Action)
    requires Inv(s, caps) && Enabled(s, caps, a) && (a.Receive? || a.Release? || a.DropReceiver?)
    ensures Inv(Do(s, caps, a), caps)
    ensures a.Release? ==> s.receiving.value <= s.counter
  {
    if a.Receive? {
      assert s.received + s.queue + [] == s.received + [s.queue[0]] + s.queue[1..] + [];
    } else if a.DropReceiver? {
      assert s.received + s.queue + [] == s.received + [] + s.queue;
    }
  }

  /** Every interleaving keeps the account, and no `fetch_sub` ever goes below zero. */
  lemma StepKeepsAccount(s: State, caps: Caps, a: Action)
    requires Inv(s, caps) && Enabled(s, caps, a)
    ensures Inv(Do(s, caps, a), caps)
    ensures a.Undo? ==> s.producers[a.t].len <= s.counter
    ensures a.Release? ==> s.receiving.value <= s.counter
  {
    match a
    case Load(t, len, seen) => PhaseStep(s, caps, t, Loaded(len, seen), s.counter);
    case Reject(t) => PhaseStep(s, caps, t, Idle, s.counter);
    case Exchange(t) =>
      var p := s.producers[t];
      PhaseStep(s, caps, t, Reserved(p.len), p.seen + p.len);
    case ExchangeFails(t) => PhaseStep(s, caps, t, Loaded(s.producers[t].len, s.counter), s.counter);
    case Send(t) => SendStep(s, caps, t);
    case SendFails(t) => PhaseStep(s, caps, t, Undoing(s.producers[t].len), s.counter);
    case Undo(t) =>
      HeldAt(s.producers, t, Idle);
      PhaseStep(s, caps, t, Idle, s.counter - s.producers[t].len);
    case Receive => ReceiveSteps(s, caps, a);
    case Release => ReceiveSteps(s, caps, a);
    case DropReceiver => ReceiveSteps(s, caps, a);
  }

  lemma SingleBytes(len: u64)
    ensures Bytes([len]) == len
  {
    assert [len][1..] == [];
  }

  // ---------- runs ----------

  predicate Possible(s: State, caps: Caps, run: seq<Action>)
    decreases |run|
  {
    run != [] ==> Enabled(s, caps, run[0]) && Possible(Do(s, caps, run[0]), caps, run[1..])
  }

  function After(s: State, caps: Caps, run: seq<Action>): State
    requires Possible(s, caps, run)
    decreases |run|
  {
    if run == [] then s else After(Do(s, caps, run[0]), caps, run[1..])
  }

  function Initial(producers: nat): State {
    State(0, seq(producers, _ => Idle), [], None, false, [], [], [])
  }

  lemma {:induction false} NothingHeld(n: nat)
    ensures AllHeld(seq(n, _ => Idle)) == 0
  {
    if n > 0 {
      NothingHeld(n - 1);
      assert seq(n, _ => Idle)[1..] == seq(n - 1, _ => Idle);
    }
  }

  lemma {:induction false} RunKeepsAccount(s: State, caps: Caps, run: seq<Action>)
    requires Inv(s, caps) && Possible(s, caps, run)
    ensures Inv(After(s, caps, run), caps)
    decreases |run|
  {
    if run != [] {
      StepKeepsAccount(s, caps, run[0]);
      RunKeepsAccount(Do(s, caps, run[0]), caps, run[1..]);
    }
  }

  /** From the start, under every interleaving. */
  lemma AccountAlwaysRight(producers: nat, caps: Caps, run: seq<Action>)
    requires Possible(Initial(producers), caps, run)
    ensures Inv(After(Initial(producers), caps, run), caps)
  {
    NothingHeld(producers);
    assert Inv(Initial(producers), caps);
    RunKeepsAccount(Initial(producers), caps, run);
  }

  predicate Quiet(s: State) {
    && s.receiving.None? && s.queue == [] && s.dropped == []
    && forall t | 0 <= t < |s.producers| :: s.producers[t].Idle? || s.producers[t].Loaded?
  }

  /** Nothing leaks: whenever nobody holds bytes and the queue is empty, the whole budget is available again. */
  lemma QuietMeansZero(s: State, caps: Caps)
    requires Inv(s, caps) && Quiet(s)
    ensures s.counter == 0
  {
    IdleHoldNothing(s.producers);
  }

  lemma {:induction false} IdleHoldNothing(ps: seq<Phase>)
    requires forall t | 0 <= t < |ps| :: ps[t].Idle? || ps[t].Loaded?
    ensures AllHeld(ps) == 0
  {
    if ps != [] {
      IdleHoldNothing(ps[1..]);
    }
  }

  // ---------- one call under any interference ----------

  predicate IsCall(a: Action, t: nat) {
    a.Load? && a.t == t
  }

  // What producer `t` sends in a run, and how often it is refused.
  function SentBy(s: State, caps: Caps, run: seq<Action>, t: nat): seq<u64>
    requires Possible(s, caps, run)
    decreases |run|
  {
    if run == [] then []
    else (if run[0] == Send(t) then [s.producers[t].len] else []) + SentBy(Do(s, caps, run[0]), caps, run[1..], t)
  }

  function Refusals(run: seq<Action>, t: nat): nat {
    if run == [] then 0 else (if run[0] == Reject(t) || run[0] == SendFails(t) then 1 else 0) + Refusals(run[1..], t)
  }

  // What a producer in the middle of a call still does until it is idle again.
  ghost predicate Ends(p: Phase, sent: seq<u64>, refusals: nat) {
    match p
    case Idle => sent == [] && refusals == 0
    case Loaded(len, _) => (sent == [len] && refusals == 0) || (sent == [] && refusals == 1)
    case Reserved(len) => (sent == [len] && refusals == 0) || (sent == [] && refusals == 1)
    case Undoing(_) => sent == [] && refusals == 0
  }

  lemma {:induction false} CallEnds(s: State, caps: Caps, run: seq<Action>, t: nat)
    requires Possible(s, caps, run) && t < |s.producers| && forall a | a in run :: !IsCall(a, t)
    requires t < |After(s, caps, run).producers| && After(s, caps, run).producers[t].Idle?
    ensures Ends(s.producers[t], SentBy(s, caps, run, t), Refusals(run, t))
    decreases |run|
  {
    if run != [] {
      assert run[0] in run && forall a | a in run[1..] :: a in run;
      CallEnds(Do(s, caps, run[0]), caps, run[1..], t);
    }
  }

  lemma {:induction false} ProducersStay(s: State, caps: Caps, run: seq<Action>)
    requires Possible(s, caps, run)
    ensures |After(s, caps, run).producers| == |s.producers|
    decreases |run|
  {
    if run != [] {
      ProducersStay(Do(s, caps, run[0]), caps, run[1..]);
    }
  }

  /** However other producers and the receiver interfere, a finished call has either sent its frame exactly once
      or was refused exactly once; then it holds no bytes, and the account is right. */
  lemma CallUnderInterference(s: State, caps: Caps, t: nat, len: u64, seen: u64, rest: seq<Action>)
    requires Inv(s, caps) && t < |s.producers| && s.producers[t].Idle?
    requires Possible(s, caps, [Load(t, len, seen)] + rest) && forall a | a in rest :: !IsCall(a, t)
    ensures var run := [Load(t, len, seen)] + rest;
            var n := After(s, caps, run);
            && t < |n.producers| && Inv(n, caps)
            && (n.producers[t].Idle? ==>
                  || (SentBy(s, caps, run, t) == [len] && Refusals(run, t) == 0)
                  || (SentBy(s, caps, run, t) == [] && Refusals(run, t) == 1))
  {
    var run := [Load(t, len, seen)] + rest;
    ProducersStay(s, caps, run);
    RunKeepsAccount(s, caps, run);
    assert run[1..] == rest;
    if After(s, caps, run).producers[t].Idle? {
      CallEnds(Do(s, caps, run[0]), caps, rest, t);
    }
  }

  // ---------- one call without interference ----------

  datatype Sent = Accepted | BytesFull | FramesFull | Closed

  // The steps of `try_send_reliable` when the load sees the present value and no exchange fails.
  function Call(s: State, caps: Caps, t: nat, len: u64): seq<Action> {
    [Load(t, len, s.counter)]
    + (if TooMuch(caps, s.counter, len) then [Reject(t)]
       else [Exchange(t)] + AfterReserve(s, caps, t))
  }

  function AfterReserve(s: State, caps: Caps, t: nat): seq<Action> {
    if s.closed || |s.queue| >= caps.frames then [SendFails(t)] + [Undo(t)] else [Send(t)]
  }

  function Outcome(s: State, caps: Caps, len: u64): Sent {
    if TooMuch(caps, s.counter, len) then BytesFull
    else if s.closed then Closed
    else if |s.queue| >= caps.frames then FramesFull
    else Accepted
  }

  // The end of a call, from the moment the bytes are counted.
  lemma ReservedEnds(s: State, r: State, caps: Caps, t: nat, len: u64)
    requires Inv(s, caps) && t < |s.producers| && s.producers[t].Idle? && s.counter + len <= U64_MAX
    requires r == s.(counter := s.counter + len, producers := s.producers[t := Reserved(len)])
    ensures Possible(r, caps, AfterReserve(s, caps, t))
    ensures After(r, caps, AfterReserve(s, caps, t)) ==
            if s.closed || |s.queue| >= caps.frames then s
            else s.(counter := s.counter + len, queue := s.queue + [len], sent := s.sent + [len])
  {
    assert r.producers[t := Idle] == s.producers;
    if s.closed || |s.queue| >= caps.frames {
      Last(Do(r, caps, SendFails(t)), caps, Undo(t));
      assert r.producers[t := Undoing(len)][t := Idle] == s.producers;
      Unroll(r, caps, SendFails(t), [Undo(t)]);
    } else {
      Last(r, caps, Send(t));
    }
  }

  lemma Last(s: State, caps: Caps, a: Action)
    requires Enabled(s, caps, a)
    ensures Possible(s, caps, [a]) && After(s, caps, [a]) == Do(s, caps, a)
  {
    assert [a][1..] == [];
  }

  /** A call accepts a frame exactly when it fits both caps; a refused frame leaves no trace. */
  lemma CallIsAllOrNothing(s: State, caps: Caps, t: nat, len: u64)
    requires Inv(s, caps) && t < |s.producers| && s.producers[t].Idle?
    ensures Possible(s, caps, Call(s, caps, t, len))
    ensures var n := After(s, caps, Call(s, caps, t, len));
            n == if s.counter + len <= caps.bytes && !s.closed && |s.queue| < caps.frames
                 then s.(counter := s.counter + len, queue := s.queue + [len], sent := s.sent + [len])
                 else s
    ensures Outcome(s, caps, len)
            == if s.counter + len > caps.bytes then BytesFull
               else if s.closed then Closed else if |s.queue| >= caps.frames then FramesFull else Accepted
  {
    var loaded := Do(s, caps, Load(t, len, s.counter));
    if TooMuch(caps, s.counter, len) {
      Last(loaded, caps, Reject(t));
      assert loaded.producers[t := Idle] == s.producers;
      Unroll(s, caps, Load(t, len, s.counter), [Reject(t)]);
    } else {
      var reserved := Do(loaded, caps, Exchange(t));
      assert reserved.producers == s.producers[t := Reserved(len)];
      ReservedEnds(s, reserved, caps, t, len);
      Unroll(loaded, caps, Exchange(t), AfterReserve(s, caps, t));
      Unroll(s, caps, Load(t, len, s.counter), [Exchange(t)] + AfterReserve(s, caps, t));
    }
  }

  lemma Unroll(s: State, caps: Caps, a: Action, rest: seq<Action>)
    requires Enabled(s, caps, a)
    ensures Possible(s, caps, [a] + rest) <==> Possible(Do(s, caps, a), caps, rest)
    ensures Possible(Do(s, caps, a), caps, rest) ==>
              After(s, caps, [a] + rest) == After(Do(s, caps, a), caps, rest)
  {
    assert ([a] + rest)[1..] == rest;
  }
}
