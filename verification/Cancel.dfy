/**
The cancel protocol of go/gizmosql/cancel.go and driver.go as interleaved atomic steps: loads,
stores, compare-and-swaps and reference-count updates are single steps, everything between them can
be interrupted. Any number of threads take part; only executing is done by one thread at a time.
*/
module Cancel {
  import opened Wrappers

  type Thread = nat

  /** Who set a `cancelled` flag first. */
  datatype Winner = Nobody | Implicit(t: Thread) | Explicit(t: Thread)

  /** `callState`, with the number of implicit cancels sent for it. */
  datatype CallState = CallState(cancelled: bool, winner: Winner, sent: nat)

  /** `execState` with the counts of its `cancelReader`: its own and the inner reader's. `entering`
      and `leaving` are the threads in a Retain or Release between the two updates. */
  datatype Stream = Stream(exhausted: bool, cancelled: bool, winner: Winner, sent: nat,
                           refs: int, inner: int, entering: set<Thread>, leaving: set<Thread>)

  /** Where a thread is. */
  datatype Pc =
    | ExecRpc(c: nat)                       // in the blocking call
    | ExecEnd(c: nat)                       // before the deferred endCall
    | CloseCas(c: nat)                      // has loaded inFlight
    | CloseCurrent                          // before loading current
    | LoadExhausted(e: nat, release: bool)  // abandoned(), first half
    | CasStream(e: nat, release: bool)      // abandoned(), second half
    | SendCall(c: nat)
    | SendStream(e: nat, release: bool)
    | InnerRelease(e: nat)
    | InnerRetain(e: nat)
    | StoreExhausted(e: nat)
    | MarkStream(e: nat)                    // CancelQuery, before storing in current
    | LoadCall                              // CancelQuery, before loading inFlight
    | MarkCall(c: nat)
    | SendExplicit
    | Done

  datatype Phase = InCall | Streaming(e: nat) | Returned

  /** The latest execution. */
  datatype Execution = Unexecuted | Execution(c: nat, phase: Phase)

  datatype State = State(
    inFlight: Option<nat>,
    current: Option<nat>,
    calls: seq<CallState>,
    streams: seq<Stream>,
    threads: map<Thread, Pc>,
    executing: Option<Thread>,
    latest: Execution,
    explicit: set<Thread>)     // threads whose explicit cancel was sent

  const INITIAL := State(None, None, [], [], map[], None, Unexecuted, {})

  datatype Op = Execute | Close | Release(e: nat) | Retain(e: nat) | NextEnds(e: nat) | CancelQuery

  datatype Reply = Fails | Returns | Streams

  datatype Action = Start(t: Thread, op: Op) | Go(t: Thread, reply: Reply)

  /** Callers use only references they hold, and do not execute while a call is in progress. */
  predicate Enabled(s: State, a: Action) {
    match a
    case Start(t, op) =>
      t !in s.threads &&
      (match op
       case Execute => s.executing.None?
       case Release(e) => e < |s.streams| && s.streams[e].refs > 0
       case Retain(e) => e < |s.streams| && s.streams[e].refs > 0
       case NextEnds(e) => e < |s.streams| && s.streams[e].refs > 0
       case _ => true)
    case Go(t, _) => t in s.threads && s.threads[t] != Done && Ranged(s, s.threads[t])
  }

  predicate Ranged(s: State, pc: Pc) {
    match pc
    case ExecRpc(c) => c < |s.calls|
    case ExecEnd(c) => c < |s.calls|
    case CloseCas(c) => c < |s.calls|
    case SendCall(c) => c < |s.calls|
    case MarkCall(c) => c < |s.calls|
    case LoadExhausted(e, _) => e < |s.streams|
    case CasStream(e, _) => e < |s.streams|
    case SendStream(e, _) => e < |s.streams|
    case InnerRelease(e) => e < |s.streams|
    case InnerRetain(e) => e < |s.streams|
    case StoreExhausted(e) => e < |s.streams|
    case MarkStream(e) => e < |s.streams|
    case _ => true
  }

  const NEW_CALL := CallState(false, Nobody, 0)
  const NEW_STREAM := Stream(false, false, Nobody, 0, 1, 1, {}, {})

  function At(s: State, t: Thread, pc: Pc): State {
    s.(threads := s.threads[t := pc])
  }

  function WithStream(s: State, e: nat, x: Stream): State
    requires e < |s.streams|
  {
    s.(streams := s.streams[e := x])
  }

  function WithCall(s: State, c: nat, x: CallState): State
    requires c < |s.calls|
  {
    s.(calls := s.calls[c := x])
  }

  /** After the implicit-cancel part: a Release goes on to the inner reader, a Close is over. */
  function Afterwards(e: nat, release: bool): Pc {
    if release then InnerRelease(e) else Done
  }

  /** The first atomic step of an operation. */
  function Begin(s: State, t: Thread, op: Op): State
    requires Enabled(s, Start(t, op))
  {
    match op
    case Execute =>
      var c := |s.calls|;
      At(s, t, ExecRpc(c)).(calls := s.calls + [NEW_CALL], inFlight := Some(c), executing := Some(t),
                            latest := Execution(c, InCall))
    case Close =>
      At(s, t, if s.inFlight.Some? then CloseCas(s.inFlight.value) else CloseCurrent)
    case Release(e) =>
      var x := s.streams[e];
      var y := x.(refs := x.refs - 1, leaving := x.leaving + {t});
      At(WithStream(s, e, y), t, if y.refs == 0 then LoadExhausted(e, true) else InnerRelease(e))
    case Retain(e) =>
      var x := s.streams[e];
      At(WithStream(s, e, x.(refs := x.refs + 1, entering := x.entering + {t})), t, InnerRetain(e))
    case NextEnds(e) => At(s, t, StoreExhausted(e))
    case CancelQuery =>
      At(s, t, if s.current.Some? then MarkStream(s.current.value) else LoadCall)
  }

  function First(w: Winner, setter: Winner): Winner {
    if w.Nobody? then setter else w
  }

  /** One further atomic step of a thread. */
  function Continue(s: State, t: Thread, reply: Reply): State
    requires Enabled(s, Go(t, reply))
  {
    match s.threads[t]
    case ExecRpc(c) =>
      if reply.Streams? then
        var e := |s.streams|;
        At(s, t, ExecEnd(c)).(streams := s.streams + [NEW_STREAM], current := Some(e),
                              latest := Execution(c, Streaming(e)))
      else At(s, t, ExecEnd(c)).(latest := Execution(c, Returned))
    case ExecEnd(c) =>
      At(s, t, Done).(inFlight := if s.inFlight == Some(c) then None else s.inFlight, executing := None)
    case CloseCas(c) =>
      if s.calls[c].cancelled then At(s, t, CloseCurrent)
      else At(WithCall(s, c, s.calls[c].(cancelled := true, winner := Implicit(t))), t, SendCall(c))
    case CloseCurrent =>
      At(s, t, if s.current.Some? then LoadExhausted(s.current.value, false) else Done)
    case LoadExhausted(e, release) =>
      At(s, t, if s.streams[e].exhausted then Afterwards(e, release) else CasStream(e, release))
    case CasStream(e, release) =>
      if s.streams[e].cancelled then At(s, t, Afterwards(e, release))
      else At(WithStream(s, e, s.streams[e].(cancelled := true, winner := Implicit(t))), t, SendStream(e, release))
    case SendCall(c) => At(WithCall(s, c, s.calls[c].(sent := s.calls[c].sent + 1)), t, Done)
    case SendStream(e, release) =>
      At(WithStream(s, e, s.streams[e].(sent := s.streams[e].sent + 1)), t, Afterwards(e, release))
    case InnerRelease(e) =>
      var x := s.streams[e];
      At(WithStream(s, e, x.(inner := x.inner - 1, leaving := x.leaving - {t})), t, Done)
    case InnerRetain(e) =>
      var x := s.streams[e];
      At(WithStream(s, e, x.(inner := x.inner + 1, entering := x.entering - {t})), t, Done)
    case StoreExhausted(e) => At(WithStream(s, e, s.streams[e].(exhausted := true)), t, Done)
    case MarkStream(e) =>
      var x := s.streams[e];
      At(WithStream(s, e, x.(cancelled := true, winner := First(x.winner, Explicit(t)))), t, LoadCall)
    case LoadCall => At(s, t, if s.inFlight.Some? then MarkCall(s.inFlight.value) else SendExplicit)
    case MarkCall(c) =>
      var x := s.calls[c];
      At(WithCall(s, c, x.(cancelled := true, winner := First(x.winner, Explicit(t)))), t, SendExplicit)
    case SendExplicit => At(s, t, Done).(explicit := s.explicit + {t})
    case Done => s
  }

  function Next(s: State, a: Action): State
    requires Enabled(s, a)
  {
    match a
    case Start(t, op) => Begin(s, t, op)
    case Go(t, reply) => Continue(s, t, reply)
  }

  predicate IsRun(states: seq<State>, actions: seq<Action>) {
    && |states| == |actions| + 1
    && states[0] == INITIAL
    && forall i :: 0 <= i < |actions| ==> Enabled(states[i], actions[i]) && states[i + 1] == Next(states[i], actions[i])
  }

  // ----- What every step keeps -----

  /** A claimed flag has one winner, and an implicit winner has sent its one cancel or is about to. */
  predicate CallInv(s: State, c: nat)
    requires c < |s.calls|
  {
    var x := s.calls[c];
    && (x.cancelled <==> !x.winner.Nobody?)
    && (match x.winner
        case Implicit(t) => t in s.threads && x.sent == (if s.threads[t] == SendCall(c) then 0 else 1)
        case Explicit(t) => x.sent == 0 && t in s.threads && ExplicitUnderWay(s, t)
        case Nobody => x.sent == 0)
  }

  predicate StreamInv(s: State, e: nat)
    requires e < |s.streams|
  {
    var x := s.streams[e];
    && (x.cancelled <==> !x.winner.Nobody?)
    && (match x.winner
        case Implicit(t) =>
          t in s.threads &&
          x.sent == (if s.threads[t].SendStream? && s.threads[t].e == e then 0 else 1)
        case Explicit(t) => x.sent == 0 && t in s.threads && ExplicitUnderWay(s, t)
        case Nobody => x.sent == 0)
  }

  predicate ExplicitUnderWay(s: State, t: Thread)
    requires t in s.threads
  {
    t in s.explicit || s.threads[t].LoadCall? || s.threads[t].MarkCall? || s.threads[t].SendExplicit?
  }

  /** A thread about to send holds the claim it sends for. */
  predicate ThreadInv(s: State, t: Thread)
    requires t in s.threads
  {
    var pc := s.threads[t];
    && Ranged(s, pc)
    && (pc.SendCall? ==> s.calls[pc.c].winner == Implicit(t) && s.calls[pc.c].sent == 0)
    && (pc.SendStream? ==> s.streams[pc.e].winner == Implicit(t) && s.streams[pc.e].sent == 0)
    && (pc.ExecRpc? ==> s.executing == Some(t) && s.latest == Execution(pc.c, InCall))
    && (pc.ExecEnd? ==> s.executing == Some(t) && s.latest.Execution? && s.latest.c == pc.c && !s.latest.phase.InCall?)
  }

  predicate LatestInv(s: State) {
    && (s.current.Some? ==> s.current.value < |s.streams|)
    && (s.executing.Some? ==>
          && s.executing.value in s.threads
          && (s.threads[s.executing.value].ExecRpc? || s.threads[s.executing.value].ExecEnd?))
    && (s.latest.Unexecuted? ==> s.inFlight.None? && s.executing.None?)
    && (s.latest.Execution? ==>
          && s.latest.c < |s.calls|
          && s.inFlight == (if s.executing.Some? then Some(s.latest.c) else None)
          && (s.latest.phase.InCall? ==> s.executing.Some?)
          && (s.latest.phase.Streaming? ==> s.current == Some(s.latest.phase.e)))
  }

  predicate Inv(s: State) {
    && LatestInv(s)
    && (forall c :: 0 <= c < |s.calls| ==> CallInv(s, c))
    && (forall e :: 0 <= e < |s.streams| ==> StreamInv(s, e))
    && (forall t :: t in s.threads ==> ThreadInv(s, t))
  }

  lemma BeginKeepsInv(s: State, t: Thread, op: Op)
    requires Inv(s) && Enabled(s, Start(t, op))
    ensures Inv(Begin(s, t, op))
  {
    var n := Begin(s, t, op);
    forall c | 0 <= c < |n.calls| ensures CallInv(n, c) {
      assert c < |s.calls| ==> CallInv(s, c);
    }
    forall e | 0 <= e < |n.streams| ensures StreamInv(n, e) {
      assert StreamInv(s, e);
    }
    forall u | u in n.threads ensures ThreadInv(n, u) {
      assert u != t ==> ThreadInv(s, u);
    }
  }

  /** All that a step does to one call, and to what its winner is judged by. */
  lemma CallEffect(s: State, t: Thread, reply: Reply, c: nat)
    requires Enabled(s, Go(t, reply)) && c < |s.calls|
    ensures var n := Continue(s, t, reply); var pc := s.threads[t]; var x := s.calls[c];
            && |n.calls| == |s.calls|
            && n.threads == s.threads[t := n.threads[t]] && s.explicit <= n.explicit
            && (n.threads[t] == SendCall(c) <==> pc == CloseCas(c) && !x.cancelled)
            && (pc.SendExplicit? ==> t in n.explicit)
            && (pc.LoadCall? || pc.MarkCall? ==> ExplicitUnderWay(n, t))
            && n.calls[c] ==
               if pc == CloseCas(c) && !x.cancelled then x.(cancelled := true, winner := Implicit(t))
               else if pc == SendCall(c) then x.(sent := x.sent + 1)
               else if pc == MarkCall(c) then x.(cancelled := true, winner := First(x.winner, Explicit(t)))
               else x
  {
  }

  lemma ContinueKeepsCalls(s: State, t: Thread, reply: Reply, c: nat)
    requires Inv(s) && Enabled(s, Go(t, reply)) && c < |s.calls|
    ensures c < |Continue(s, t, reply).calls| && CallInv(Continue(s, t, reply), c)
  {
    assert ThreadInv(s, t) && CallInv(s, c);
    CallEffect(s, t, reply, c);
    hide Inv, Continue, Enabled;
  }

  lemma ThreadsEffect(s: State, t: Thread, reply: Reply)
    requires Enabled(s, Go(t, reply))
    ensures var n := Continue(s, t, reply); var pc := s.threads[t];
            && n.threads == s.threads[t := n.threads[t]] && s.explicit <= n.explicit
            && (pc.SendExplicit? ==> t in n.explicit)
            && (pc.LoadCall? || pc.MarkCall? || pc.MarkStream? ==> ExplicitUnderWay(n, t))
  {
    hide First;
  }

  lemma StreamEffect(s: State, t: Thread, reply: Reply, e: nat)
    requires Enabled(s, Go(t, reply)) && e < |Continue(s, t, reply).streams|
    ensures var n := Continue(s, t, reply); var pc := s.threads[t];
            && n.threads == s.threads[t := n.threads[t]] && s.explicit <= n.explicit
            && (e >= |s.streams| ==> n.streams[e] == NEW_STREAM)
            && (pc.SendExplicit? ==> t in n.explicit)
            && (pc.LoadCall? || pc.MarkCall? || pc.MarkStream? ==> ExplicitUnderWay(n, t))
    ensures e < |s.streams| ==>
              var n := Continue(s, t, reply); var pc := s.threads[t]; var x := s.streams[e]; var y := n.streams[e];
              && (n.threads[t].SendStream? && n.threads[t].e == e <==> pc.CasStream? && pc.e == e && !x.cancelled)
              && (y.cancelled, y.winner, y.sent) ==
                 if pc.CasStream? && pc.e == e && !x.cancelled then (true, Implicit(t), x.sent)
                 else if pc.SendStream? && pc.e == e then (x.cancelled, x.winner, x.sent + 1)
                 else if pc == MarkStream(e) then (true, First(x.winner, Explicit(t)), x.sent)
                 else (x.cancelled, x.winner, x.sent)
  {
    ThreadsEffect(s, t, reply);
    if e < |s.streams| {
      FlagsEffect(s, t, reply, e);
      SendersEffect(s, t, reply, e);
    } else {
      NewStreamEffect(s, t, reply, e);
    }
    hide Continue;
  }

  lemma FlagsEffect(s: State, t: Thread, reply: Reply, e: nat)
    requires Enabled(s, Go(t, reply)) && e < |s.streams|
    ensures e < |Continue(s, t, reply).streams|
    ensures var pc := s.threads[t]; var x := s.streams[e]; var y := Continue(s, t, reply).streams[e];
            (y.cancelled, y.winner, y.sent) ==
            if pc.CasStream? && pc.e == e && !x.cancelled then (true, Implicit(t), x.sent)
            else if pc.SendStream? && pc.e == e then (x.cancelled, x.winner, x.sent + 1)
            else if pc == MarkStream(e) then (true, First(x.winner, Explicit(t)), x.sent)
            else (x.cancelled, x.winner, x.sent)
  {
    hide First;
  }

  /** Only a thread that has just claimed a stream is about to send for it. */
  lemma SendersEffect(s: State, t: Thread, reply: Reply, e: nat)
    requires Enabled(s, Go(t, reply)) && e < |s.streams|
    ensures var pc := s.threads[t]; var after := Continue(s, t, reply).threads[t];
            after.SendStream? && after.e == e <==> pc.CasStream? && pc.e == e && !s.streams[e].cancelled
  {
    hide First;
  }

  lemma NewStreamEffect(s: State, t: Thread, reply: Reply, e: nat)
    requires Enabled(s, Go(t, reply)) && |s.streams| <= e < |Continue(s, t, reply).streams|
    ensures Continue(s, t, reply).streams[e] == NEW_STREAM
  {
    hide First;
  }

  lemma ContinueKeepsStreams(s: State, t: Thread, reply: Reply, e: nat)
    requires Inv(s) && Enabled(s, Go(t, reply)) && e < |Continue(s, t, reply).streams|
    ensures StreamInv(Continue(s, t, reply), e)
  {
    assert ThreadInv(s, t);
    StreamEffect(s, t, reply, e);
    if e < |s.streams| {
      assert StreamInv(s, e);
    }
    hide Inv, Continue, Enabled;
  }

  /** What another thread relies on is not taken from it by a step. */
  predicate LeavesAlone(s: State, n: State, u: Thread)
    requires u in s.threads
  {
    var pc := s.threads[u];
    && u in n.threads && n.threads[u] == pc
    && |s.calls| <= |n.calls| && |s.streams| <= |n.streams|
    && (pc.SendCall? && pc.c < |s.calls| ==>
          n.calls[pc.c].winner == s.calls[pc.c].winner && n.calls[pc.c].sent == s.calls[pc.c].sent)
    && (pc.SendStream? && pc.e < |s.streams| ==>
          n.streams[pc.e].winner == s.streams[pc.e].winner && n.streams[pc.e].sent == s.streams[pc.e].sent)
    && (pc.ExecRpc? || pc.ExecEnd? ==> n.executing == s.executing && n.latest == s.latest)
  }

  lemma StepLeavesOthers(s: State, t: Thread, reply: Reply, u: Thread)
    requires Inv(s) && Enabled(s, Go(t, reply)) && u in s.threads && u != t
    ensures LeavesAlone(s, Continue(s, t, reply), u)
  {
    assert ThreadInv(s, t) && ThreadInv(s, u);
    var pc := s.threads[u];
    ThreadsEffect(s, t, reply);
    LatestEffect(s, t, reply);
    if pc.SendCall? {
      assert CallInv(s, pc.c);
      CallEffect(s, t, reply, pc.c);
    }
    if pc.SendStream? {
      assert StreamInv(s, pc.e);
      StreamEffect(s, t, reply, pc.e);
    }
    hide Continue, Enabled, Inv, LatestInv;
  }

  /** Only the executing thread says where the latest execution stands. */
  lemma LatestEffect(s: State, t: Thread, reply: Reply)
    requires Enabled(s, Go(t, reply))
    ensures var n := Continue(s, t, reply); var pc := s.threads[t];
            && |n.calls| == |s.calls| && |s.streams| <= |n.streams|
            && (!pc.ExecRpc? && !pc.ExecEnd? ==> n.executing == s.executing && n.latest == s.latest)
  {
    hide First;
  }

  lemma ContinueKeepsOthers(s: State, t: Thread, reply: Reply, u: Thread)
    requires Inv(s) && Enabled(s, Go(t, reply)) && u in s.threads && u != t
    ensures u in Continue(s, t, reply).threads && ThreadInv(Continue(s, t, reply), u)
  {
    StepLeavesOthers(s, t, reply, u);
    assert ThreadInv(s, u);
    hide Continue, LatestInv, CallInv, StreamInv;
  }

  lemma ContinueKeepsOwn(s: State, t: Thread, reply: Reply)
    requires Inv(s) && Enabled(s, Go(t, reply))
    ensures t in Continue(s, t, reply).threads && ThreadInv(Continue(s, t, reply), t)
  {
    assert ThreadInv(s, t);
    var pc := s.threads[t];
    if pc.CloseCas? {
      assert CallInv(s, pc.c);
    }
    if pc.CasStream? {
      assert StreamInv(s, pc.e);
    }
  }

  lemma ContinueKeepsThreads(s: State, t: Thread, reply: Reply, u: Thread)
    requires Inv(s) && Enabled(s, Go(t, reply)) && u in s.threads
    ensures u in Continue(s, t, reply).threads && ThreadInv(Continue(s, t, reply), u)
  {
    if u == t {
      ContinueKeepsOwn(s, t, reply);
    } else {
      ContinueKeepsOthers(s, t, reply, u);
    }
  }

  lemma ContinueKeepsLatest(s: State, t: Thread, reply: Reply)
    requires Inv(s) && Enabled(s, Go(t, reply))
    ensures LatestInv(Continue(s, t, reply))
  {
    assert ThreadInv(s, t);
  }

  lemma NextKeepsInv(s: State, a: Action)
    requires Inv(s) && Enabled(s, a)
    ensures Inv(Next(s, a))
  {
    match a
    case Start(t, op) => BeginKeepsInv(s, t, op);
    case Go(t, reply) =>
      var n := Continue(s, t, reply);
      ContinueKeepsLatest(s, t, reply);
      forall c | 0 <= c < |n.calls| ensures CallInv(n, c) {
        ContinueKeepsCalls(s, t, reply, c);
      }
      forall e | 0 <= e < |n.streams| ensures StreamInv(n, e) {
        ContinueKeepsStreams(s, t, reply, e);
      }
      forall u | u in n.threads ensures ThreadInv(n, u) {
        ContinueKeepsThreads(s, t, reply, u);
      }
  }

  lemma {:induction false} RunKeepsInv(states: seq<State>, actions: seq<Action>, n: nat)
    requires IsRun(states, actions) && n <= |actions|
    ensures Inv(states[n])
  {
    if n == 0 {
    } else {
      hide Next, Inv;
      RunKeepsInv(states, actions, n - 1);
      NextKeepsInv(states[n - 1], actions[n - 1]);
    }
  }

  // ----- At most one implicit cancel per phase -----

  /** In every state of every run, at most one implicit cancel has been sent for each call phase and
      at most one for each stream phase. */
  lemma AtMostOneCancelPerPhase(states: seq<State>, actions: seq<Action>, n: nat)
    requires IsRun(states, actions) && n <= |actions|
    ensures forall c :: 0 <= c < |states[n].calls| ==> states[n].calls[c].sent <= 1
    ensures forall e :: 0 <= e < |states[n].streams| ==> states[n].streams[e].sent <= 1
  {
    RunKeepsInv(states, actions, n);
    var s := states[n];
    forall c | 0 <= c < |s.calls| ensures s.calls[c].sent <= 1 {
      assert CallInv(s, c);
    }
    forall e | 0 <= e < |s.streams| ensures s.streams[e].sent <= 1 {
      assert StreamInv(s, e);
    }
  }

  /** Nothing un-claims a flag, revives a stream, or forgets one. */
  predicate Later(a: State, b: State) {
    && |a.calls| <= |b.calls| && |a.streams| <= |b.streams|
    && (forall c :: 0 <= c < |a.calls| ==>
          (a.calls[c].cancelled ==> b.calls[c].cancelled) &&
          (!a.calls[c].winner.Nobody? ==> b.calls[c].winner == a.calls[c].winner))
    && (forall e :: 0 <= e < |a.streams| ==>
          (a.streams[e].cancelled ==> b.streams[e].cancelled) &&
          (a.streams[e].exhausted ==> b.streams[e].exhausted) &&
          (!a.streams[e].winner.Nobody? ==> b.streams[e].winner == a.streams[e].winner))
  }

  lemma NextIsLater(s: State, a: Action)
    requires Inv(s) && Enabled(s, a)
    ensures Later(s, Next(s, a))
  {
    if a.Go? {
      assert ThreadInv(s, a.t);
      var pc := s.threads[a.t];
      if pc.CloseCas? {
        assert CallInv(s, pc.c);
      }
      if pc.CasStream? {
        assert StreamInv(s, pc.e);
      }
    }
  }

  lemma LaterTransitive(a: State, b: State, c: State)
    requires Later(a, b) && Later(b, c)
    ensures Later(a, c)
  {
  }

  lemma {:induction false} RunIsLater(states: seq<State>, actions: seq<Action>, i: nat, j: nat)
    requires IsRun(states, actions) && i <= j <= |actions|
    ensures Later(states[i], states[j])
  {
    if i == j {
    } else {
      hide Next, Inv, Later;
      RunIsLater(states, actions, i, j - 1);
      RunKeepsInv(states, actions, j - 1);
      NextIsLater(states[j - 1], actions[j - 1]);
      LaterTransitive(states[i], states[j - 1], states[j]);
    }
  }

  /** A phase whose flag an explicit CancelQuery stored first never gets an implicit cancel. */
  lemma ExplicitFirstMeansNoImplicit(states: seq<State>, actions: seq<Action>, i: nat, j: nat)
    requires IsRun(states, actions) && i <= j <= |actions|
    ensures forall c :: 0 <= c < |states[i].calls| && states[i].calls[c].winner.Explicit? ==>
              c < |states[j].calls| && states[j].calls[c].sent == 0
    ensures forall e :: 0 <= e < |states[i].streams| && states[i].streams[e].winner.Explicit? ==>
              e < |states[j].streams| && states[j].streams[e].sent == 0
  {
    RunKeepsInv(states, actions, j);
    RunIsLater(states, actions, i, j);
    var s := states[j];
    forall c | 0 <= c < |states[i].calls| && states[i].calls[c].winner.Explicit?
      ensures c < |s.calls| && s.calls[c].sent == 0
    {
      assert CallInv(s, c);
    }
    forall e | 0 <= e < |states[i].streams| && states[i].streams[e].winner.Explicit?
      ensures e < |s.streams| && s.streams[e].sent == 0
    {
      assert StreamInv(s, e);
    }
  }

  /** No thread has found the stream unexhausted and not yet acted on it. */
  predicate NobodyPast(s: State, e: nat) {
    forall t :: t in s.threads ==> !((s.threads[t].CasStream? || s.threads[t].SendStream?) && s.threads[t].e == e)
  }

  predicate Drained(s: State, e: nat) {
    e < |s.streams| && s.streams[e].exhausted && NobodyPast(s, e)
  }

  lemma NextKeepsDrained(s: State, a: Action, e: nat)
    requires Inv(s) && Enabled(s, a) && Drained(s, e)
    ensures Drained(Next(s, a), e) && Next(s, a).streams[e].sent == s.streams[e].sent
  {
    if a.Go? {
      assert ThreadInv(s, a.t);
    }
  }

  /** From such a state on the number of implicit cancels does not change. */
  lemma {:induction false} DrainedStaysDrained(states: seq<State>, actions: seq<Action>, i: nat, j: nat, e: nat)
    requires IsRun(states, actions) && i <= j <= |actions| && Drained(states[i], e)
    ensures Drained(states[j], e) && states[j].streams[e].sent == states[i].streams[e].sent
  {
    hide Next, Inv, Drained;
    if i == j {
    } else {
      DrainedStaysDrained(states, actions, i, j - 1, e);
      RunKeepsInv(states, actions, j - 1);
      NextKeepsDrained(states[j - 1], actions[j - 1], e);
    }
  }

  /** The action begins a Close, or a Release of the last reference to the stream. */
  predicate BeginsAbandoning(s: State, a: Action, e: nat)
    requires Enabled(s, a)
  {
    a.Start? && (a.op.Close? || (a.op == Release(e) && s.streams[e].refs == 1))
  }

  /** Nobody is on the way to cancelling the stream, and no cancel was sent for it. */
  predicate Untouched(s: State, e: nat) {
    && (e < |s.streams| ==> s.streams[e].sent == 0)
    && forall t :: t in s.threads ==> !Looks(s.threads[t], e)
  }

  predicate Looks(pc: Pc, e: nat) {
    || pc.CloseCas? || pc.CloseCurrent?
    || ((pc.LoadExhausted? || pc.CasStream? || pc.SendStream?) && pc.e == e)
  }

  lemma NextKeepsUntouched(s: State, a: Action, e: nat)
    requires Inv(s) && Enabled(s, a) && Untouched(s, e) && !BeginsAbandoning(s, a, e)
    ensures Untouched(Next(s, a), e)
  {
    match a
    case Start(t, op) => BeginKeepsUntouched(s, t, op, e); hide Begin, Inv, Untouched;
    case Go(t, reply) => ContinueKeepsUntouched(s, t, reply, e); hide Continue, Inv, Untouched;
  }

  lemma BeginKeepsUntouched(s: State, t: Thread, op: Op, e: nat)
    requires Enabled(s, Start(t, op)) && Untouched(s, e) && !BeginsAbandoning(s, Start(t, op), e)
    ensures Untouched(Begin(s, t, op), e)
  {
    hide Looks;
    assert !Looks(Begin(s, t, op).threads[t], e) by {
      BeginLooksNowhere(s, t, op, e);
    }
  }

  lemma BeginLooksNowhere(s: State, t: Thread, op: Op, e: nat)
    requires Enabled(s, Start(t, op)) && !BeginsAbandoning(s, Start(t, op), e)
    ensures !Looks(Begin(s, t, op).threads[t], e)
  {
  }

  lemma ContinueLooksNowhere(s: State, t: Thread, reply: Reply, e: nat)
    requires Enabled(s, Go(t, reply)) && !Looks(s.threads[t], e)
    ensures !Looks(Continue(s, t, reply).threads[t], e)
  {
  }

  lemma ContinueKeepsUntouched(s: State, t: Thread, reply: Reply, e: nat)
    requires Enabled(s, Go(t, reply)) && Untouched(s, e)
    ensures Untouched(Continue(s, t, reply), e)
  {
    ContinueLooksNowhere(s, t, reply, e);
    if e < |Continue(s, t, reply).streams| {
      StreamEffect(s, t, reply, e);
    }
    ThreadsEffect(s, t, reply);
    hide Continue;
  }

  lemma {:induction false} RunKeepsUntouched(states: seq<State>, actions: seq<Action>, n: nat, e: nat)
    requires IsRun(states, actions) && n <= |actions|
    requires forall k :: 0 <= k < n ==> !BeginsAbandoning(states[k], actions[k], e)
    ensures Untouched(states[n], e)
  {
    hide Next, Inv, Untouched, BeginsAbandoning;
    if n == 0 {
      NothingTouched(e);
    } else {
      RunKeepsUntouched(states, actions, n - 1, e);
      RunKeepsInv(states, actions, n - 1);
      NextKeepsUntouched(states[n - 1], actions[n - 1], e);
    }
  }

  lemma NothingTouched(e: nat)
    ensures Untouched(INITIAL, e)
  {
  }

  /** A stream that is exhausted before any Close or any Release of its last reference begins is never
      cancelled implicitly, whatever begins later. */
  lemma ExhaustedStreamsAreNotCancelled(states: seq<State>, actions: seq<Action>, i: nat, j: nat, e: nat)
    requires IsRun(states, actions) && i <= j <= |actions|
    requires forall k :: 0 <= k < i ==> !BeginsAbandoning(states[k], actions[k], e)
    requires e < |states[i].streams| && states[i].streams[e].exhausted
    ensures e < |states[j].streams| && states[j].streams[e].sent == 0
  {
    RunKeepsUntouched(states, actions, i, e);
    assert Drained(states[i], e);
    DrainedStaysDrained(states, actions, i, j, e);
  }

  // ----- No cancel is lost -----

  /** A claimed flag is a cancel sent, once the thread that claimed it is done with its operation. */
  lemma ClaimedMeansSent(states: seq<State>, actions: seq<Action>, n: nat)
    requires IsRun(states, actions) && n <= |actions|
    requires forall t :: t in states[n].threads ==> states[n].threads[t] == Done
    ensures forall c :: 0 <= c < |states[n].calls| && states[n].calls[c].cancelled ==>
              var x := states[n].calls[c];
              if x.winner.Implicit? then x.sent == 1 else x.winner.Explicit? && x.winner.t in states[n].explicit
    ensures forall e :: 0 <= e < |states[n].streams| && states[n].streams[e].cancelled ==>
              var x := states[n].streams[e];
              if x.winner.Implicit? then x.sent == 1 else x.winner.Explicit? && x.winner.t in states[n].explicit
  {
    RunKeepsInv(states, actions, n);
    var s := states[n];
    forall c | 0 <= c < |s.calls| && s.calls[c].cancelled
      ensures var x := s.calls[c];
              if x.winner.Implicit? then x.sent == 1 else x.winner.Explicit? && x.winner.t in s.explicit
    {
      assert CallInv(s, c);
    }
    forall e | 0 <= e < |s.streams| && s.streams[e].cancelled
      ensures var x := s.streams[e];
              if x.winner.Implicit? then x.sent == 1 else x.winner.Explicit? && x.winner.t in s.explicit
    {
      assert StreamInv(s, e);
    }
  }

  /** The execution of call `c` needs no cancel any more: one is claimed for its call or its stream,
      its stream is exhausted, or it ended without handing out a stream. */
  predicate Settled(s: State, c: nat) {
    && c < |s.calls|
    && (|| s.calls[c].cancelled
        || (s.latest == Execution(c, Returned))
        || (s.latest.Execution? && s.latest.c == c && s.latest.phase.Streaming? && s.latest.phase.e < |s.streams| &&
            (s.streams[s.latest.phase.e].exhausted || s.streams[s.latest.phase.e].cancelled)))
  }

  predicate IsLatest(s: State, c: nat) {
    s.latest.Execution? && s.latest.c == c
  }

  /** From the start of a call on, whoever looks finds the execution: its call is in flight, or its
      stream is the current one, or nothing is left to cancel. */
  lemma NoBlindWindow(states: seq<State>, actions: seq<Action>, n: nat, c: nat)
    requires IsRun(states, actions) && n <= |actions| && IsLatest(states[n], c)
    ensures var s := states[n];
            || (s.inFlight == Some(c) && c < |s.calls| && !s.calls[c].cancelled)
            || (s.current.Some? && s.latest.phase == Streaming(s.current.value) && s.current.value < |s.streams| &&
                !s.streams[s.current.value].exhausted && !s.streams[s.current.value].cancelled)
            || Settled(s, c)
  {
    RunKeepsInv(states, actions, n);
  }

  /** What a Close that started during the execution of `c` knows at each of its steps. */
  predicate ClosingInv(s: State, t: Thread, c: nat) {
    && t in s.threads && IsLatest(s, c)
    && (Settled(s, c) ||
        match s.threads[t]
        case CloseCas(c') => c' == c
        case CloseCurrent => s.latest.phase.Streaming?
        case LoadExhausted(e, _) => s.latest.phase == Streaming(e)
        case CasStream(e, _) => s.latest.phase == Streaming(e)
        case _ => false)
  }

  lemma SettledStays(s: State, a: Action, c: nat)
    requires Inv(s) && Enabled(s, a) && Settled(s, c) && IsLatest(s, c) && IsLatest(Next(s, a), c)
    ensures Settled(Next(s, a), c)
  {
    NextIsLater(s, a);
    if a.Go? {
      assert ThreadInv(s, a.t);
    }
  }

  lemma CloseStarts(s: State, t: Thread, c: nat)
    requires Inv(s) && Enabled(s, Start(t, Close)) && IsLatest(s, c)
    ensures ClosingInv(Begin(s, t, Close), t, c)
  {
  }

  lemma ClosingStepOwn(s: State, t: Thread, reply: Reply, c: nat)
    requires Inv(s) && Enabled(s, Go(t, reply)) && ClosingInv(s, t, c) && !Settled(s, c)
    ensures IsLatest(Continue(s, t, reply), c) ==> ClosingInv(Continue(s, t, reply), t, c)
  {
    assert ThreadInv(s, t);
  }

  lemma ClosingStepOther(s: State, a: Action, t: Thread, c: nat)
    requires Inv(s) && Enabled(s, a) && ClosingInv(s, t, c) && !Settled(s, c) && a.t != t
    ensures IsLatest(Next(s, a), c) ==> ClosingInv(Next(s, a), t, c)
  {
    NextIsLater(s, a);
    if a.Go? {
      assert ThreadInv(s, a.t);
    }
  }

  lemma ThreadsStay(s: State, a: Action, t: Thread)
    requires Enabled(s, a) && t in s.threads
    ensures t in Next(s, a).threads
  {
  }

  lemma NextKeepsClosing(s: State, a: Action, t: Thread, c: nat)
    requires Inv(s) && Enabled(s, a) && ClosingInv(s, t, c) && IsLatest(Next(s, a), c)
    ensures ClosingInv(Next(s, a), t, c)
  {
    if Settled(s, c) {
      SettledStays(s, a, c);
      ThreadsStay(s, a, t);
      hide Next, Inv, Settled, Enabled;
    } else if a.t == t {
      ClosingStepOwn(s, t, a.reply, c);
      hide Continue, Inv, Settled, ClosingInv, Enabled;
    } else {
      ClosingStepOther(s, a, t, c);
      hide Next, Inv, Settled, ClosingInv, Enabled;
    }
  }

  lemma NextIsBegin(s: State, t: Thread)
    requires Enabled(s, Start(t, Close))
    ensures Next(s, Start(t, Close)) == Begin(s, t, Close)
  {
  }

  lemma {:induction false} RunKeepsClosing(states: seq<State>, actions: seq<Action>, i: nat, j: nat, t: Thread, c: nat)
    requires IsRun(states, actions) && i < j <= |actions|
    requires actions[i] == Start(t, Close)
    requires forall k :: i <= k <= j ==> IsLatest(states[k], c)
    ensures ClosingInv(states[j], t, c)
  {
    hide Next, Inv, ClosingInv;
    if j == i + 1 {
      RunKeepsInv(states, actions, i);
      NextIsBegin(states[i], t);
      CloseStarts(states[i], t, c);
    } else {
      RunKeepsClosing(states, actions, i, j - 1, t, c);
      RunKeepsInv(states, actions, j - 1);
      assert IsLatest(states[j], c);
      NextKeepsClosing(states[j - 1], actions[j - 1], t, c);
    }
  }

  /** A Close that starts at any moment of an execution, in the call, at the hand-over to the stream or
      while the stream is read, and whatever the other threads do meanwhile, never ends with the
      execution left running uncancelled. */
  lemma CloseNeverMissesTheExecution(states: seq<State>, actions: seq<Action>, i: nat, j: nat, t: Thread, c: nat)
    requires IsRun(states, actions) && i < j <= |actions|
    requires actions[i] == Start(t, Close) && t in states[j].threads && states[j].threads[t] == Done
    requires forall k :: i <= k <= j ==> IsLatest(states[k], c)
    ensures Settled(states[j], c)
  {
    RunKeepsClosing(states, actions, i, j, t, c);
  }

  /** What a Close that started while the result of `c` was read knows at each of its steps. */
  predicate ClosingStream(s: State, t: Thread, c: nat, e: nat) {
    && t in s.threads && s.latest == Execution(c, Streaming(e)) && s.executing.None? && e < |s.streams|
    && (|| s.streams[e].exhausted || s.streams[e].cancelled
        || s.threads[t] in {CloseCurrent, LoadExhausted(e, false), CasStream(e, false)})
  }

  lemma NextKeepsClosingStream(s: State, a: Action, t: Thread, c: nat, e: nat)
    requires Inv(s) && Enabled(s, a) && ClosingStream(s, t, c, e) && IsLatest(Next(s, a), c)
    ensures ClosingStream(Next(s, a), t, c, e)
  {
    NextIsLater(s, a);
    if a.Go? {
      assert ThreadInv(s, a.t);
    }
  }

  lemma CloseStartsOnStream(s: State, t: Thread, c: nat, e: nat)
    requires Inv(s) && Enabled(s, Start(t, Close)) && s.latest == Execution(c, Streaming(e)) && s.executing.None?
    ensures ClosingStream(Begin(s, t, Close), t, c, e)
  {
  }

  lemma {:induction false} RunKeepsClosingStream(states: seq<State>, actions: seq<Action>, i: nat, j: nat,
                                                 t: Thread, c: nat, e: nat)
    requires IsRun(states, actions) && i < j <= |actions| && actions[i] == Start(t, Close)
    requires states[i].latest == Execution(c, Streaming(e)) && states[i].executing.None?
    requires forall k :: i <= k <= j ==> IsLatest(states[k], c)
    ensures ClosingStream(states[j], t, c, e)
  {
    hide Next, Inv, ClosingStream;
    if j == i + 1 {
      RunKeepsInv(states, actions, i);
      NextIsBegin(states[i], t);
      CloseStartsOnStream(states[i], t, c, e);
    } else {
      RunKeepsClosingStream(states, actions, i, j - 1, t, c, e);
      RunKeepsInv(states, actions, j - 1);
      assert IsLatest(states[j], c);
      NextKeepsClosingStream(states[j - 1], actions[j - 1], t, c, e);
    }
  }

  /** Once the call has returned, a claim made for the call no longer counts: a Close that starts while the
      result is read ends with the stream itself exhausted or cancelled. */
  lemma CloseSettlesTheStream(states: seq<State>, actions: seq<Action>, i: nat, j: nat, t: Thread, c: nat, e: nat)
    requires IsRun(states, actions) && i < j <= |actions|
    requires actions[i] == Start(t, Close) && t in states[j].threads && states[j].threads[t] == Done
    requires states[i].latest == Execution(c, Streaming(e)) && states[i].executing.None?
    requires forall k :: i <= k <= j ==> IsLatest(states[k], c)
    ensures e < |states[j].streams| && (states[j].streams[e].exhausted || states[j].streams[e].cancelled)
  {
    RunKeepsClosingStream(states, actions, i, j, t, c, e);
  }

  // ----- Reference counts -----

  /** A thread that has given up its reference of the wrapper's and not yet the inner one. */
  predicate Leaves(pc: Pc, e: nat) {
    match pc
    case LoadExhausted(e', release) => release && e' == e
    case CasStream(e', release) => release && e' == e
    case SendStream(e', release) => release && e' == e
    case InnerRelease(e') => e' == e
    case _ => false
  }

  /** The wrapper's count is the number of references it holds on the inner reader, up to exactly the
      threads that are between the two updates. */
  ghost predicate Counted(s: State, e: nat)
    requires e < |s.streams|
  {
    var x := s.streams[e];
    && x.refs >= 0
    && x.inner + |x.entering| == x.refs + |x.leaving|
    && (forall t :: t in x.leaving <==> t in s.threads && Leaves(s.threads[t], e))
    && (forall t :: t in x.entering <==> t in s.threads && s.threads[t] == InnerRetain(e))
  }

  lemma BeginMoves(s: State, t: Thread, op: Op, e: nat)
    requires Enabled(s, Start(t, op)) && e < |s.streams|
    ensures var n := Begin(s, t, op); var x, y := s.streams[e], n.streams[e];
            && n.threads == s.threads[t := n.threads[t]]
            && y.leaving == (if Leaves(n.threads[t], e) then x.leaving + {t} else x.leaving)
            && y.entering == (if n.threads[t] == InnerRetain(e) then x.entering + {t} else x.entering)
  {
  }

  lemma BeginKeepsMembers(s: State, t: Thread, op: Op, e: nat)
    requires Enabled(s, Start(t, op)) && e < |s.streams| && Counted(s, e)
    ensures var n := Begin(s, t, op); var x := n.streams[e];
            && (forall u :: u in x.leaving <==> u in n.threads && Leaves(n.threads[u], e))
            && (forall u :: u in x.entering <==> u in n.threads && n.threads[u] == InnerRetain(e))
  {
    BeginMoves(s, t, op, e);
    hide Begin, Leaves, Enabled;
  }

  lemma BeginKeepsCounted(s: State, t: Thread, op: Op, e: nat)
    requires Enabled(s, Start(t, op)) && e < |s.streams| && Counted(s, e)
    ensures Counted(Begin(s, t, op), e)
  {
    BeginKeepsMembers(s, t, op, e);
    var x := s.streams[e];
    assert t !in x.leaving && t !in x.entering;
    assert |x.leaving + {t}| == |x.leaving| + 1 && |x.entering + {t}| == |x.entering| + 1;
  }

  lemma ContinueMovesLeaving(s: State, t: Thread, reply: Reply, e: nat)
    requires Enabled(s, Go(t, reply)) && e < |s.streams|
    ensures var n := Continue(s, t, reply); var pc := s.threads[t]; var x, y := s.streams[e], n.streams[e];
            && n.threads == s.threads[t := n.threads[t]]
            && y.leaving == (if pc == InnerRelease(e) then x.leaving - {t} else x.leaving)
  {
    hide Leaves;
  }

  lemma ContinueStaysLeaving(s: State, t: Thread, reply: Reply, e: nat)
    requires Enabled(s, Go(t, reply)) && e < |s.streams|
    ensures Leaves(Continue(s, t, reply).threads[t], e) <==> Leaves(s.threads[t], e) && s.threads[t] != InnerRelease(e)
  {
  }

  lemma ContinueMovesEntering(s: State, t: Thread, reply: Reply, e: nat)
    requires Enabled(s, Go(t, reply)) && e < |s.streams|
    ensures var n := Continue(s, t, reply); var pc := s.threads[t]; var x, y := s.streams[e], n.streams[e];
            && y.entering == (if pc == InnerRetain(e) then x.entering - {t} else x.entering)
            && n.threads[t] != InnerRetain(e)
  {
  }

  lemma ContinueKeepsMembers(s: State, t: Thread, reply: Reply, e: nat)
    requires Enabled(s, Go(t, reply)) && e < |s.streams| && Counted(s, e)
    ensures var n := Continue(s, t, reply); var x := n.streams[e];
            && (forall u :: u in x.leaving <==> u in n.threads && Leaves(n.threads[u], e))
            && (forall u :: u in x.entering <==> u in n.threads && n.threads[u] == InnerRetain(e))
  {
    ContinueMovesLeaving(s, t, reply, e);
    ContinueStaysLeaving(s, t, reply, e);
    ContinueMovesEntering(s, t, reply, e);
    hide Continue, Leaves, Enabled;
  }

  lemma ContinueKeepsCounted(s: State, t: Thread, reply: Reply, e: nat)
    requires Enabled(s, Go(t, reply)) && e < |s.streams| && Counted(s, e)
    ensures Counted(Continue(s, t, reply), e)
  {
    ContinueKeepsMembers(s, t, reply, e);
    hide ExplicitUnderWay;
    var x := s.streams[e];
    assert t in x.leaving <==> Leaves(s.threads[t], e);
    assert t in x.entering <==> s.threads[t] == InnerRetain(e);
    assert t in x.leaving ==> |x.leaving - {t}| == |x.leaving| - 1;
    assert t in x.entering ==> |x.entering - {t}| == |x.entering| - 1;
  }

  lemma NewStreamIsCounted(s: State, t: Thread, reply: Reply, e: nat)
    requires Inv(s) && Enabled(s, Go(t, reply)) && |s.streams| <= e < |Continue(s, t, reply).streams|
    ensures Counted(Continue(s, t, reply), e)
  {
    forall u | u in s.threads ensures !Leaves(s.threads[u], e) && s.threads[u] != InnerRetain(e) {
      assert ThreadInv(s, u);
    }
  }

  lemma {:induction false} ReferencesAlwaysMatch(states: seq<State>, actions: seq<Action>, n: nat)
    requires IsRun(states, actions) && n <= |actions|
    ensures forall e :: 0 <= e < |states[n].streams| ==> Counted(states[n], e)
  {
    if n == 0 {
    } else {
      ReferencesAlwaysMatch(states, actions, n - 1);
      RunKeepsInv(states, actions, n - 1);
      var s, a := states[n - 1], actions[n - 1];
      forall e | 0 <= e < |states[n].streams| ensures Counted(states[n], e) {
        match a
        case Start(t, op) => BeginKeepsCounted(s, t, op, e);
        case Go(t, reply) =>
          if e < |s.streams| {
            ContinueKeepsCounted(s, t, reply, e);
          } else {
            NewStreamIsCounted(s, t, reply, e);
          }
      }
    }
  }
}
