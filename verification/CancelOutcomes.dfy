/**
What the interleaved cancel protocol comes to for a caller: a result read to its end is never cancelled, a
result given up before its end always is, and no operation waits for another.
*/
module CancelOutcomes {
  import opened Wrappers
  import opened Cancel

  // ----- A result read to its end -----

  /** The thread that saw the end of a result has yet to remember it, or it is remembered. */
  predicate Ending(s: State, t: Thread, e: nat) {
    && t in s.threads && e < |s.streams|
    && (s.threads[t] == StoreExhausted(e) || s.streams[e].exhausted)
  }

  lemma BeginsEnding(s: State, t: Thread, e: nat)
    requires Enabled(s, Start(t, NextEnds(e)))
    ensures Ending(Next(s, Start(t, NextEnds(e))), t, e)
  {
  }

  lemma NextKeepsEnding(s: State, a: Action, t: Thread, e: nat)
    requires Enabled(s, a) && Ending(s, t, e)
    ensures Ending(Next(s, a), t, e)
  {
  }

  lemma {:induction false} RunKeepsEnding(states: seq<State>, actions: seq<Action>, i: nat, j: nat, t: Thread, e: nat)
    requires IsRun(states, actions) && i < j <= |actions| && actions[i] == Start(t, NextEnds(e))
    ensures Ending(states[j], t, e)
  {
    hide Next, Ending, Enabled;
    if j == i + 1 {
      BeginsEnding(states[i], t, e);
    } else {
      RunKeepsEnding(states, actions, i, j - 1, t, e);
      NextKeepsEnding(states[j - 1], actions[j - 1], t, e);
    }
  }

  /**
  Once a read has reported the end of a result, and no Close and no Release of the last reference had begun
  by then, no implicit cancel is ever sent for that result, whatever begins later.
  */
  lemma ReadToTheEndIsNeverCancelled(states: seq<State>, actions: seq<Action>, i: nat, j: nat, k: nat,
                                     t: Thread, e: nat)
    requires IsRun(states, actions) && i < j <= k <= |actions|
    requires actions[i] == Start(t, NextEnds(e)) && t in states[j].threads && states[j].threads[t] == Done
    requires forall m :: 0 <= m < j ==> !BeginsAbandoning(states[m], actions[m], e)
    ensures e < |states[k].streams| && states[k].streams[e].sent == 0
  {
    RunKeepsEnding(states, actions, i, j, t, e);
    ExhaustedStreamsAreNotCancelled(states, actions, j, k, e);
  }

  // ----- A result given up -----

  /** The thread that gave up the last reference is about to see whether a cancel is due. */
  predicate OnTheWay(pc: Pc, e: nat) {
    pc == LoadExhausted(e, true) || pc == CasStream(e, true)
  }

  /** A stream nobody refers to is exhausted or cancelled, or a thread is on its way to that. */
  ghost predicate TakenCareOf(s: State, e: nat)
    requires e < |s.streams|
  {
    var x := s.streams[e];
    x.refs > 0 || x.exhausted || x.cancelled || exists t :: t in s.threads && OnTheWay(s.threads[t], e)
  }

  lemma BeginTakesCare(s: State, t: Thread, op: Op, e: nat)
    requires Enabled(s, Start(t, op)) && e < |s.streams| && Cancel.Counted(s, e) && TakenCareOf(s, e)
    ensures TakenCareOf(Begin(s, t, op), e)
  {
    var n := Begin(s, t, op);
    if exists u :: u in s.threads && OnTheWay(s.threads[u], e) {
      var u :| u in s.threads && OnTheWay(s.threads[u], e);
      assert u in n.threads && n.threads[u] == s.threads[u];
    }
    if op == Release(e) && s.streams[e].refs == 1 {
      assert OnTheWay(n.threads[t], e);
    }
  }

  /** What one step does to the stream and to the thread that takes it. */
  lemma StepOnTheWay(s: State, t: Thread, reply: Reply, e: nat)
    requires Enabled(s, Go(t, reply)) && e < |s.streams|
    ensures var n := Continue(s, t, reply); var x, y := s.streams[e], n.streams[e];
            && y.refs == x.refs && (x.exhausted ==> y.exhausted) && (x.cancelled ==> y.cancelled)
            && n.threads == s.threads[t := n.threads[t]]
            && (OnTheWay(s.threads[t], e) ==> y.exhausted || y.cancelled || OnTheWay(n.threads[t], e))
  {
    hide First;
  }

  lemma ContinueTakesCare(s: State, t: Thread, reply: Reply, e: nat)
    requires Enabled(s, Go(t, reply)) && e < |s.streams| && TakenCareOf(s, e)
    ensures TakenCareOf(Continue(s, t, reply), e)
  {
    StepOnTheWay(s, t, reply, e);
    var n := Continue(s, t, reply);
    hide Continue, OnTheWay, Enabled;
    if exists u :: u in s.threads && OnTheWay(s.threads[u], e) {
      var u :| u in s.threads && OnTheWay(s.threads[u], e);
      assert u in n.threads && (u != t ==> n.threads[u] == s.threads[u]);
    }
  }

  lemma NewStreamIsHeld(s: State, t: Thread, reply: Reply, e: nat)
    requires Enabled(s, Go(t, reply)) && |s.streams| <= e < |Continue(s, t, reply).streams|
    ensures Continue(s, t, reply).streams[e].refs > 0
  {
    NewStreamEffect(s, t, reply, e);
  }

  lemma {:induction false} RunTakesCare(states: seq<State>, actions: seq<Action>, n: nat, e: nat)
    requires IsRun(states, actions) && n <= |actions| && e < |states[n].streams|
    ensures TakenCareOf(states[n], e)
  {
    if n == 0 {
    } else {
      var s, a := states[n - 1], actions[n - 1];
      hide Begin, Continue, TakenCareOf, Cancel.Counted;
      if a.Start? {
        StreamsStay(s, a.t, a.op);
        RunTakesCare(states, actions, n - 1, e);
        ReferencesAlwaysMatch(states, actions, n - 1);
        BeginTakesCare(s, a.t, a.op, e);
      } else if e < |s.streams| {
        RunTakesCare(states, actions, n - 1, e);
        ContinueTakesCare(s, a.t, a.reply, e);
      } else {
        NewStreamIsHeld(s, a.t, a.reply, e);
        HeldIsTakenCareOf(states[n], e);
      }
    }
  }

  lemma StreamsStay(s: State, t: Thread, op: Op)
    requires Enabled(s, Start(t, op))
    ensures |Begin(s, t, op).streams| == |s.streams|
  {
  }

  lemma HeldIsTakenCareOf(s: State, e: nat)
    requires e < |s.streams| && s.streams[e].refs > 0
    ensures TakenCareOf(s, e)
  {
  }

  /**
  Once all threads are done, a result that nobody refers to any more and whose end nobody saw has been
  cancelled on the server: by exactly one implicit request, or by the explicit one that came first.
  */
  lemma GivenUpMeansCancelled(states: seq<State>, actions: seq<Action>, n: nat, e: nat)
    requires IsRun(states, actions) && n <= |actions| && e < |states[n].streams|
    requires forall t :: t in states[n].threads ==> states[n].threads[t] == Done
    requires states[n].streams[e].refs == 0 && !states[n].streams[e].exhausted
    ensures var x := states[n].streams[e];
            && x.cancelled
            && if x.winner.Implicit? then x.sent == 1
               else x.winner.Explicit? && x.winner.t in states[n].explicit
  {
    RunTakesCare(states, actions, n, e);
    ClaimedMeansSent(states, actions, n);
  }

  // ----- A cancel asked for -----

  /** A CancelQuery that found the stream current has yet to mark it, or it is marked. */
  predicate MarkingStream(s: State, t: Thread, e: nat) {
    t in s.threads && e < |s.streams| && (s.threads[t] == MarkStream(e) || s.streams[e].cancelled)
  }

  lemma BeginsMarkingStream(s: State, t: Thread, e: nat)
    requires Inv(s) && Enabled(s, Start(t, CancelQuery)) && s.current == Some(e)
    ensures MarkingStream(Next(s, Start(t, CancelQuery)), t, e)
  {
  }

  lemma NextKeepsMarkingStream(s: State, a: Action, t: Thread, e: nat)
    requires Inv(s) && Enabled(s, a) && MarkingStream(s, t, e)
    ensures MarkingStream(Next(s, a), t, e)
  {
    NextIsLater(s, a);
    hide Inv, First;
    match a
    case Start(_, _) =>
    case Go(u, reply) =>
      ThreadsEffect(s, u, reply);
      FlagsEffect(s, u, reply, e);
      hide Continue, ExplicitUnderWay;
  }

  lemma {:induction false} RunKeepsMarkingStream(states: seq<State>, actions: seq<Action>, i: nat, j: nat,
                                                 t: Thread, e: nat)
    requires IsRun(states, actions) && i < j <= |actions|
    requires actions[i] == Start(t, CancelQuery) && states[i].current == Some(e)
    ensures MarkingStream(states[j], t, e)
  {
    hide Next, MarkingStream, Enabled, Inv;
    RunKeepsInv(states, actions, j - 1);
    if j == i + 1 {
      BeginsMarkingStream(states[i], t, e);
    } else {
      RunKeepsMarkingStream(states, actions, i, j - 1, t, e);
      NextKeepsMarkingStream(states[j - 1], actions[j - 1], t, e);
    }
  }

  /** After a CancelQuery that comes before any Close and any Release of the last reference, abandoning the
      result that was current sends no second cancel. */
  lemma CancelQueryComesFirst(states: seq<State>, actions: seq<Action>, i: nat, j: nat, k: nat, t: Thread, e: nat)
    requires IsRun(states, actions) && i < j <= k <= |actions|
    requires actions[i] == Start(t, CancelQuery) && states[i].current == Some(e)
    requires t in states[j].threads && states[j].threads[t] == Done
    requires forall m :: 0 <= m < j ==> !BeginsAbandoning(states[m], actions[m], e)
    ensures e < |states[k].streams| && states[k].streams[e].cancelled && states[k].streams[e].sent == 0
  {
    RunKeepsMarkingStream(states, actions, i, j, t, e);
    RunKeepsUntouched(states, actions, j, e);
    RunKeepsInv(states, actions, j);
    assert StreamInv(states[j], e);
    ExplicitFirstMeansNoImplicit(states, actions, j, k);
    RunIsLater(states, actions, j, k);
  }

  // ----- No operation waits for another -----

  /** How many steps a thread still takes at most. */
  function Ahead(pc: Pc): nat {
    match pc
    case ExecRpc(_) => 2
    case CloseCas(_) => 5
    case CloseCurrent => 4
    case LoadExhausted(_, release) => if release then 4 else 3
    case CasStream(_, release) => if release then 3 else 2
    case SendStream(_, release) => if release then 2 else 1
    case MarkStream(_) => 4
    case LoadCall => 3
    case MarkCall(_) => 2
    case Done => 0
    case _ => 1
  }

  /** In every state of every run a thread that is not done can take a step, which brings it nearer to its end,
      and moves no other thread. So every operation is over after six steps of its own. */
  lemma NobodyWaits(states: seq<State>, actions: seq<Action>, n: nat, t: Thread, reply: Reply)
    requires IsRun(states, actions) && n <= |actions| && t in states[n].threads && states[n].threads[t] != Done
    ensures Enabled(states[n], Go(t, reply)) && Ahead(states[n].threads[t]) <= 5
    ensures var s := states[n]; var after := Continue(s, t, reply);
            && t in after.threads && Ahead(after.threads[t]) < Ahead(s.threads[t])
            && after.threads == s.threads[t := after.threads[t]]
  {
    RunKeepsInv(states, actions, n);
    assert ThreadInv(states[n], t);
    StepComesNearer(states[n], t, reply);
    hide Inv, Continue, IsRun, Ranged, Ahead;
  }

  lemma StepComesNearer(s: State, t: Thread, reply: Reply)
    requires t in s.threads && s.threads[t] != Done && Ranged(s, s.threads[t])
    ensures Ahead(s.threads[t]) <= 5
    ensures var after := Continue(s, t, reply);
            && t in after.threads && Ahead(after.threads[t]) < Ahead(s.threads[t])
            && after.threads == s.threads[t := after.threads[t]]
  {
    hide First;
  }

  /** And every operation can begin: executing when no call is in progress, the rest at any time, by whoever
      holds a reference. */
  lemma AnyoneMayBegin(s: State, t: Thread, op: Op)
    requires t !in s.threads
    ensures op.Close? || op.CancelQuery? || (op.Execute? && s.executing.None?) ==> Enabled(s, Start(t, op))
    ensures (op.Release? || op.Retain? || op.NextEnds?) && op.e < |s.streams| && s.streams[op.e].refs > 0 ==>
              Enabled(s, Start(t, op))
    ensures Enabled(s, Start(t, op)) ==> Ahead(Begin(s, t, op).threads[t]) <= 5
  {
  }

  // ----- Two runs -----

  /** The run of the actions from `s` on. */
  function Path(s: State, actions: seq<Action>): Option<State>
    decreases |actions|
  {
    if |actions| == 0 then Some(s)
    else if !Enabled(s, actions[0]) then None
    else Path(Next(s, actions[0]), actions[1..])
  }

  lemma {:induction false} PathConcat(s: State, a: seq<Action>, b: seq<Action>)
    requires Path(s, a).Some?
    ensures Path(s, a + b) == Path(Path(s, a).value, b)
    decreases |a|
  {
    hide Next, Enabled;
    if |a| == 0 {
      assert a + b == b;
    } else {
      PathConcat(Next(s, a[0]), a[1..], b);
      assert (a + b)[1..] == a[1..] + b;
    }
  }

  lemma OneStep(s: State, a: Action)
    requires Enabled(s, a)
    ensures Path(s, [a]) == Some(Next(s, a))
  {
    assert Path(Next(s, a), [a][1..]) == Some(Next(s, a));
  }

  /** One more step at the end of a path. */
  lemma PathStep(s: State, actions: seq<Action>, m: State, a: Action)
    requires Path(s, actions) == Some(m) && Enabled(m, a)
    ensures Path(s, actions + [a]) == Some(Next(m, a))
  {
    hide Next, Enabled;
    PathConcat(s, actions, [a]);
    OneStep(m, a);
  }

  const EXECUTED := [Start(1, Execute)] + [Go(1, Streams)] + [Go(1, Fails)]
  const READ := EXECUTED + [Start(2, NextEnds(0))] + [Go(2, Fails)]

  /** The state after one execution that handed out a stream, and the steps of other threads. */
  function After(x: Stream, threads: map<Thread, Pc>): State {
    State(None, Some(0), [NEW_CALL], [x], threads, None, Execution(0, Streaming(0)), {})
  }

  lemma ExecutedIsReached()
    ensures Path(INITIAL, EXECUTED) == Some(After(NEW_STREAM, map[1 := Done]))
  {
    var a := State(Some(0), None, [NEW_CALL], [], map[1 := ExecRpc(0)], Some(1), Execution(0, InCall), {});
    var b := State(Some(0), Some(0), [NEW_CALL], [NEW_STREAM], map[1 := ExecEnd(0)], Some(1),
                   Execution(0, Streaming(0)), {});
    OneStep(INITIAL, Start(1, Execute));
    assert Next(INITIAL, Start(1, Execute)) == a;
    PathStep(INITIAL, [Start(1, Execute)], a, Go(1, Streams));
    assert Next(a, Go(1, Streams)) == b;
    PathStep(INITIAL, [Start(1, Execute)] + [Go(1, Streams)], b, Go(1, Fails));
    assert Next(b, Go(1, Fails)) == After(NEW_STREAM, map[1 := Done]);
  }

  lemma ReadIsReached()
    ensures Path(INITIAL, READ) == Some(After(NEW_STREAM.(exhausted := true), map[1 := Done, 2 := Done]))
  {
    ExecutedIsReached();
    var s := After(NEW_STREAM, map[1 := Done]);
    var a := After(NEW_STREAM, map[1 := Done, 2 := StoreExhausted(0)]);
    PathStep(INITIAL, EXECUTED, s, Start(2, NextEnds(0)));
    assert Next(s, Start(2, NextEnds(0))) == a;
    PathStep(INITIAL, EXECUTED + [Start(2, NextEnds(0))], a, Go(2, Fails));
    assert Next(a, Go(2, Fails)) == After(NEW_STREAM.(exhausted := true), map[1 := Done, 2 := Done]);
  }

  /** A result read to its end and then released is not cancelled. */
  lemma ReadThenReleased()
    ensures var x := NEW_STREAM.(exhausted := true, refs := 0, inner := 0);
            Path(INITIAL, READ + [Start(3, Release(0))] + [Go(3, Fails)] + [Go(3, Fails)]) ==
            Some(After(x, map[1 := Done, 2 := Done, 3 := Done]))
  {
    hide Path;
    ReadIsReached();
    var done := map[1 := Done, 2 := Done];
    var x := NEW_STREAM.(exhausted := true);
    var y := x.(refs := 0, leaving := {3});
    var s, a, b := After(x, done), After(y, done[3 := LoadExhausted(0, true)]), After(y, done[3 := InnerRelease(0)]);
    assert x.leaving + {3} == {3} && {3} - {3} == x.leaving;
    PathStep(INITIAL, READ, s, Start(3, Release(0)));
    assert Next(s, Start(3, Release(0))) == a;
    PathStep(INITIAL, READ + [Start(3, Release(0))], a, Go(3, Fails));
    assert Next(a, Go(3, Fails)) == b;
    PathStep(INITIAL, READ + [Start(3, Release(0))] + [Go(3, Fails)], b, Go(3, Fails));
    assert Next(b, Go(3, Fails)) == After(x.(refs := 0, inner := 0), done[3 := Done]);
  }

  const CLAIMED := EXECUTED + [Start(3, Release(0))] + [Go(3, Fails)] + [Go(3, Fails)]

  lemma ClaimedIsReached()
    ensures var z := Stream(false, true, Implicit(3), 0, 0, 1, {}, {3});
            Path(INITIAL, CLAIMED) == Some(After(z, map[1 := Done, 3 := SendStream(0, true)]))
  {
    hide Path;
    ExecutedIsReached();
    var y := NEW_STREAM.(refs := 0, leaving := {3});
    var s := After(NEW_STREAM, map[1 := Done]);
    var a := After(y, map[1 := Done, 3 := LoadExhausted(0, true)]);
    var b := After(y, map[1 := Done, 3 := CasStream(0, true)]);
    assert NEW_STREAM.leaving + {3} == {3};
    PathStep(INITIAL, EXECUTED, s, Start(3, Release(0)));
    assert Next(s, Start(3, Release(0))) == a;
    PathStep(INITIAL, EXECUTED + [Start(3, Release(0))], a, Go(3, Fails));
    assert Next(a, Go(3, Fails)) == b;
    PathStep(INITIAL, EXECUTED + [Start(3, Release(0))] + [Go(3, Fails)], b, Go(3, Fails));
    assert Next(b, Go(3, Fails)) ==
           After(Stream(false, true, Implicit(3), 0, 0, 1, {}, {3}), map[1 := Done, 3 := SendStream(0, true)]);
  }

  /** A result that is released unread is. */
  lemma ReleasedUnread()
    ensures Path(INITIAL, CLAIMED + [Go(3, Fails)] + [Go(3, Fails)]) ==
            Some(After(Stream(false, true, Implicit(3), 1, 0, 0, {}, {}), map[1 := Done, 3 := Done]))
  {
    ClaimedIsReached();
    var a := After(Stream(false, true, Implicit(3), 0, 0, 1, {}, {3}), map[1 := Done, 3 := SendStream(0, true)]);
    var b := After(Stream(false, true, Implicit(3), 1, 0, 1, {}, {3}), map[1 := Done, 3 := InnerRelease(0)]);
    assert a.streams[0].leaving - {3} == {};
    PathStep(INITIAL, CLAIMED, a, Go(3, Fails));
    assert Next(a, Go(3, Fails)) == b;
    PathStep(INITIAL, CLAIMED + [Go(3, Fails)], b, Go(3, Fails));
    assert Next(b, Go(3, Fails)) ==
           After(Stream(false, true, Implicit(3), 1, 0, 0, {}, {}), map[1 := Done, 3 := Done]);
  }
}
