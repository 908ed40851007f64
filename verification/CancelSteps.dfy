/**
The sequential methods of CancelReader and the interleaved machine of Cancel say the same: a thread whose
steps of Close, Release or CancelQuery are not interrupted changes flags, counts and requests as the
method does.
*/
module CancelSteps {
  import opened Wrappers
  import C = CancelReader
  import opened Cancel

  // ----- One thread alone -----

  /** Up to `n` further steps of a thread, with no other thread in between. */
  function Finish(s: State, t: Thread, n: nat): State
    decreases n
  {
    if n == 0 || !Enabled(s, Go(t, Fails)) then s else Finish(Continue(s, t, Fails), t, n - 1)
  }

  lemma FinishStep(s: State, t: Thread, n: nat)
    requires n > 0 && Enabled(s, Go(t, Fails))
    ensures Finish(s, t, n) == Finish(Continue(s, t, Fails), t, n - 1)
  {
  }

  lemma FinishDone(s: State, t: Thread, n: nat)
    requires t in s.threads && s.threads[t] == Done
    ensures Finish(s, t, n) == s
  {
  }

  lemma AtAgain(s: State, t: Thread, a: Pc, b: Pc)
    ensures At(At(s, t, a), t, b) == At(s, t, b)
  {
    assert s.threads[t := a][t := b] == s.threads[t := b];
  }

  /** A cancel is due for the call in flight. */
  predicate CallDue(s: State) {
    s.inFlight.Some? && s.inFlight.value < |s.calls| && !s.calls[s.inFlight.value].cancelled
  }

  predicate StreamDue(s: State, e: nat) {
    e < |s.streams| && !s.streams[e].exhausted && !s.streams[e].cancelled
  }

  /** The call claimed by thread `t`, and its cancel sent. */
  function CallClaimed(s: State, t: Thread): State
    requires CallDue(s)
  {
    var c := s.inFlight.value;
    WithCall(s, c, CallState(true, Implicit(t), s.calls[c].sent + 1))
  }

  /** The stream claimed by thread `t`, and its cancel sent, if that is due. */
  function StreamClaimed(s: State, t: Thread, e: nat): State
    requires e < |s.streams|
  {
    var x := s.streams[e];
    if StreamDue(s, e) then WithStream(s, e, x.(cancelled := true, winner := Implicit(t), sent := x.sent + 1)) else s
  }

  function Closed(s: State, t: Thread): State {
    if CallDue(s) then At(CallClaimed(s, t), t, Done)
    else if s.current.Some? && s.current.value < |s.streams| then At(StreamClaimed(s, t, s.current.value), t, Done)
    else At(s, t, Done)
  }

  function Released(s: State, t: Thread, e: nat): State
    requires e < |s.streams|
  {
    var x := s.streams[e];
    var r := if x.refs == 1 then StreamClaimed(s, t, e) else s;
    var y := r.streams[e];
    At(WithStream(r, e, y.(refs := y.refs - 1, inner := y.inner - 1, leaving := y.leaving - {t})), t, Done)
  }

  function Marked(s: State, t: Thread): State {
    var a := if s.current.Some? && s.current.value < |s.streams| then
               var x := s.streams[s.current.value];
               WithStream(s, s.current.value, x.(cancelled := true, winner := First(x.winner, Explicit(t))))
             else s;
    if a.inFlight.Some? && a.inFlight.value < |a.calls| then
      var x := a.calls[a.inFlight.value];
      WithCall(a, a.inFlight.value, x.(cancelled := true, winner := First(x.winner, Explicit(t))))
    else a
  }

  function QueryCancelled(s: State, t: Thread): State {
    At(Marked(s, t), t, Done).(explicit := s.explicit + {t})
  }

  /** `abandoned` and the cancel, alone: one to three steps. */
  lemma AbandonAlone(s: State, t: Thread, e: nat, release: bool, n: nat) returns (k: nat)
    requires e < |s.streams| && n >= 3
    ensures 1 <= k <= 3
    ensures Finish(At(s, t, LoadExhausted(e, release)), t, n) ==
            Finish(At(StreamClaimed(s, t, e), t, Afterwards(e, release)), t, n - k)
  {
    hide Finish;
    var a := At(s, t, LoadExhausted(e, release));
    FinishStep(a, t, n);
    if s.streams[e].exhausted {
      AtAgain(s, t, LoadExhausted(e, release), Afterwards(e, release));
      k := 1;
    } else {
      var b := At(s, t, CasStream(e, release));
      AtAgain(s, t, LoadExhausted(e, release), CasStream(e, release));
      assert Continue(a, t, Fails) == b;
      k := CasAlone(s, t, e, release, n - 1);
      k := k + 1;
    }
  }

  lemma CasAlone(s: State, t: Thread, e: nat, release: bool, n: nat) returns (k: nat)
    requires e < |s.streams| && n >= 2 && !s.streams[e].exhausted
    ensures 1 <= k <= 2
    ensures Finish(At(s, t, CasStream(e, release)), t, n) ==
            Finish(At(StreamClaimed(s, t, e), t, Afterwards(e, release)), t, n - k)
  {
    hide Finish;
    var x := s.streams[e];
    var b := At(s, t, CasStream(e, release));
    FinishStep(b, t, n);
    if x.cancelled {
      AtAgain(s, t, CasStream(e, release), Afterwards(e, release));
      k := 1;
    } else {
      var claimed := WithStream(s, e, x.(cancelled := true, winner := Implicit(t)));
      var d := At(claimed, t, SendStream(e, release));
      AtAgain(claimed, t, CasStream(e, release), SendStream(e, release));
      assert Continue(b, t, Fails) == d;
      SendAlone(s, t, e, release, n - 1);
      k := 2;
    }
  }

  lemma SendAlone(s: State, t: Thread, e: nat, release: bool, n: nat)
    requires StreamDue(s, e) && n >= 1
    ensures var claimed := WithStream(s, e, s.streams[e].(cancelled := true, winner := Implicit(t)));
            Finish(At(claimed, t, SendStream(e, release)), t, n) ==
            Finish(At(StreamClaimed(s, t, e), t, Afterwards(e, release)), t, n - 1)
  {
    var claimed := WithStream(s, e, s.streams[e].(cancelled := true, winner := Implicit(t)));
    var d := At(claimed, t, SendStream(e, release));
    FinishStep(d, t, n);
    AtAgain(StreamClaimed(s, t, e), t, SendStream(e, release), Afterwards(e, release));
    assert claimed.streams[e := StreamClaimed(s, t, e).streams[e]] == StreamClaimed(s, t, e).streams;
    assert Continue(d, t, Fails) == At(StreamClaimed(s, t, e), t, Afterwards(e, release));
  }

  /** The part of Close that looks at the current stream. */
  lemma CloseCurrentAlone(s: State, t: Thread, n: nat)
    requires s.current.Some? ==> s.current.value < |s.streams|
    requires n >= 4
    ensures Finish(At(s, t, CloseCurrent), t, n) ==
            At(if s.current.Some? then StreamClaimed(s, t, s.current.value) else s, t, Done)
  {
    FinishStep(At(s, t, CloseCurrent), t, n);
    if s.current.Some? {
      var e := s.current.value;
      AtAgain(s, t, CloseCurrent, LoadExhausted(e, false));
      var k := AbandonAlone(s, t, e, false, n - 1);
      FinishDone(At(StreamClaimed(s, t, e), t, Done), t, n - 1 - k);
    } else {
      AtAgain(s, t, CloseCurrent, Done);
      FinishDone(At(s, t, Done), t, n - 1);
    }
  }

  /** A Close that nobody interrupts. */
  lemma CloseAlone(s: State, t: Thread)
    requires Inv(s) && Enabled(s, Start(t, Close))
    ensures Finish(Begin(s, t, Close), t, 6) == Closed(s, t)
  {
    assert LatestInv(s);
    hide Inv, CallInv, StreamInv, ThreadInv;
    if s.inFlight.Some? {
      var c := s.inFlight.value;
      var a := At(s, t, CloseCas(c));
      FinishStep(a, t, 6);
      if s.calls[c].cancelled {
        AtAgain(s, t, CloseCas(c), CloseCurrent);
        CloseCurrentAlone(s, t, 5);
      } else {
        ClaimAlone(s, t, c);
      }
    } else {
      CloseCurrentAlone(s, t, 6);
    }
  }

  lemma ClaimAlone(s: State, t: Thread, c: nat)
    requires s.inFlight == Some(c) && CallDue(s)
    ensures Finish(At(s, t, CloseCas(c)), t, 6) == At(CallClaimed(s, t), t, Done)
  {
    var a := At(s, t, CloseCas(c));
    FinishStep(a, t, 6);
    var claimed := WithCall(s, c, s.calls[c].(cancelled := true, winner := Implicit(t)));
    var b := At(claimed, t, SendCall(c));
    AtAgain(claimed, t, CloseCas(c), SendCall(c));
    assert Continue(a, t, Fails) == b;
    FinishStep(b, t, 5);
    assert claimed.calls[c := CallClaimed(s, t).calls[c]] == CallClaimed(s, t).calls;
    AtAgain(CallClaimed(s, t), t, SendCall(c), Done);
    assert Continue(b, t, Fails) == At(CallClaimed(s, t), t, Done);
    FinishDone(At(CallClaimed(s, t), t, Done), t, 4);
  }

  /** A Release that nobody interrupts. */
  lemma ReleaseAlone(s: State, t: Thread, e: nat)
    requires Enabled(s, Start(t, Release(e)))
    ensures Finish(Begin(s, t, Release(e)), t, 4) == Released(s, t, e)
  {
    hide Finish, Continue, Released;
    var x := s.streams[e];
    var y := x.(refs := x.refs - 1, leaving := x.leaving + {t});
    var left := WithStream(s, e, y);
    if y.refs == 0 {
      var k := AbandonAlone(left, t, e, true, 4);
      InnerReleaseAlone(StreamClaimed(left, t, e), t, e, 4 - k);
    } else {
      InnerReleaseAlone(left, t, e, 4);
    }
    ReleasedTogether(s, t, e);
  }

  lemma InnerReleaseAlone(s: State, t: Thread, e: nat, n: nat)
    requires e < |s.streams| && n >= 1
    ensures var x := s.streams[e];
            Finish(At(s, t, InnerRelease(e)), t, n) ==
            At(WithStream(s, e, x.(inner := x.inner - 1, leaving := x.leaving - {t})), t, Done)
  {
    var x := s.streams[e];
    FinishStep(At(s, t, InnerRelease(e)), t, n);
    var after := WithStream(s, e, x.(inner := x.inner - 1, leaving := x.leaving - {t}));
    AtAgain(after, t, InnerRelease(e), Done);
    FinishDone(At(after, t, Done), t, n - 1);
  }

  /** Claiming first or giving up the reference first comes to the same. */
  lemma ReleasedTogether(s: State, t: Thread, e: nat)
    requires e < |s.streams|
    ensures var x := s.streams[e];
            var left := WithStream(s, e, x.(refs := x.refs - 1, leaving := x.leaving + {t}));
            var r := if x.refs == 1 then StreamClaimed(left, t, e) else left;
            var y := r.streams[e];
            At(WithStream(r, e, y.(inner := y.inner - 1, leaving := y.leaving - {t})), t, Done) == Released(s, t, e)
  {
    var x := s.streams[e];
    assert x.leaving + {t} - {t} == x.leaving - {t};
    var left := WithStream(s, e, x.(refs := x.refs - 1, leaving := x.leaving + {t}));
    var r := if x.refs == 1 then StreamClaimed(left, t, e) else left;
    var y := r.streams[e];
    var got := WithStream(r, e, y.(inner := y.inner - 1, leaving := y.leaving - {t}));
    assert got.streams == Released(s, t, e).streams;
  }

  /** A CancelQuery that nobody interrupts. */
  lemma CancelQueryAlone(s: State, t: Thread)
    requires Inv(s) && Enabled(s, Start(t, CancelQuery))
    ensures Finish(Begin(s, t, CancelQuery), t, 4) == QueryCancelled(s, t)
  {
    assert LatestInv(s);
    hide Inv, CallInv, StreamInv, ThreadInv;
    if s.current.Some? {
      var e := s.current.value;
      var x := s.streams[e];
      var a := At(s, t, MarkStream(e));
      FinishStep(a, t, 4);
      var marked := WithStream(s, e, x.(cancelled := true, winner := First(x.winner, Explicit(t))));
      AtAgain(marked, t, MarkStream(e), LoadCall);
      assert Continue(a, t, Fails) == At(marked, t, LoadCall);
      MarkCallAlone(marked, t, 3);
    } else {
      MarkCallAlone(s, t, 4);
    }
  }

  lemma MarkCallAlone(s: State, t: Thread, n: nat)
    requires n >= 3 && (s.inFlight.Some? ==> s.inFlight.value < |s.calls|)
    ensures var a := if s.inFlight.Some? then
                       var x := s.calls[s.inFlight.value];
                       WithCall(s, s.inFlight.value, x.(cancelled := true, winner := First(x.winner, Explicit(t))))
                     else s;
            Finish(At(s, t, LoadCall), t, n) == At(a, t, Done).(explicit := s.explicit + {t})
  {
    FinishStep(At(s, t, LoadCall), t, n);
    if s.inFlight.Some? {
      var c := s.inFlight.value;
      var x := s.calls[c];
      var b := At(s, t, MarkCall(c));
      AtAgain(s, t, LoadCall, MarkCall(c));
      FinishStep(b, t, n - 1);
      var marked := WithCall(s, c, x.(cancelled := true, winner := First(x.winner, Explicit(t))));
      AtAgain(marked, t, MarkCall(c), SendExplicit);
      assert Continue(b, t, Fails) == At(marked, t, SendExplicit);
      SendExplicitAlone(marked, t, n - 2);
    } else {
      AtAgain(s, t, LoadCall, SendExplicit);
      SendExplicitAlone(s, t, n - 1);
    }
  }

  lemma SendExplicitAlone(s: State, t: Thread, n: nat)
    requires n >= 1
    ensures Finish(At(s, t, SendExplicit), t, n) == At(s, t, Done).(explicit := s.explicit + {t})
  {
    FinishStep(At(s, t, SendExplicit), t, n);
    AtAgain(s, t, SendExplicit, Done);
    FinishDone(At(s, t, Done).(explicit := s.explicit + {t}), t, n - 1);
  }

  // ----- Requests -----

  function CallRequests(cs: seq<CallState>): nat {
    if |cs| == 0 then 0 else cs[0].sent + CallRequests(cs[1..])
  }

  function StreamRequests(xs: seq<Stream>): nat {
    if |xs| == 0 then 0 else xs[0].sent + StreamRequests(xs[1..])
  }

  /** All requests for a cancel, implicit and explicit. */
  function Requests(s: State): nat {
    CallRequests(s.calls) + StreamRequests(s.streams) + |s.explicit|
  }

  lemma {:induction false} OneCallMore(cs: seq<CallState>, c: nat, x: CallState)
    requires c < |cs|
    ensures CallRequests(cs[c := x]) == CallRequests(cs) + x.sent - cs[c].sent
  {
    if c == 0 {
      assert cs[c := x][1..] == cs[1..];
    } else {
      OneCallMore(cs[1..], c - 1, x);
      assert cs[c := x][1..] == cs[1..][c - 1 := x];
    }
  }

  lemma {:induction false} OneStreamMore(xs: seq<Stream>, e: nat, x: Stream)
    requires e < |xs|
    ensures StreamRequests(xs[e := x]) == StreamRequests(xs) + x.sent - xs[e].sent
  {
    if e == 0 {
      assert xs[e := x][1..] == xs[1..];
    } else {
      OneStreamMore(xs[1..], e - 1, x);
      assert xs[e := x][1..] == xs[1..][e - 1 := x];
    }
  }

  /** Whether a Close sends a request. */
  predicate CloseDue(s: State) {
    CallDue(s) || (s.current.Some? && StreamDue(s, s.current.value))
  }

  lemma ClosedRequests(s: State, t: Thread)
    ensures Requests(Closed(s, t)) == Requests(s) + if CloseDue(s) then 1 else 0
  {
    hide CallRequests, StreamRequests;
    if CallDue(s) {
      OneCallMore(s.calls, s.inFlight.value, Closed(s, t).calls[s.inFlight.value]);
    } else if s.current.Some? && StreamDue(s, s.current.value) {
      OneStreamMore(s.streams, s.current.value, Closed(s, t).streams[s.current.value]);
    }
  }

  lemma ReleasedRequests(s: State, t: Thread, e: nat)
    requires e < |s.streams|
    ensures Requests(Released(s, t, e)) == Requests(s) + if s.streams[e].refs == 1 && StreamDue(s, e) then 1 else 0
  {
    hide CallRequests, StreamRequests;
    OneStreamMore(s.streams, e, Released(s, t, e).streams[e]);
    assert Released(s, t, e).streams == s.streams[e := Released(s, t, e).streams[e]];
  }

  lemma QueryCancelledRequests(s: State, t: Thread)
    requires t !in s.explicit
    ensures Requests(QueryCancelled(s, t)) == Requests(s) + 1
  {
    hide CallRequests, StreamRequests;
    var n := QueryCancelled(s, t);
    if s.current.Some? && s.current.value < |s.streams| {
      OneStreamMore(s.streams, s.current.value, n.streams[s.current.value]);
    }
    if s.inFlight.Some? && s.inFlight.value < |s.calls| {
      OneCallMore(s.calls, s.inFlight.value, n.calls[s.inFlight.value]);
    }
  }

  /** Only a thread that was started has sent an explicit cancel. */
  lemma {:induction false} ExplicitAreStarted(states: seq<State>, actions: seq<Action>, n: nat)
    requires IsRun(states, actions) && n <= |actions|
    ensures states[n].explicit <= states[n].threads.Keys
  {
    if n == 0 {
    } else {
      ExplicitAreStarted(states, actions, n - 1);
      NextKeepsExplicit(states[n - 1], actions[n - 1]);
    }
  }

  lemma NextKeepsExplicit(s: State, a: Action)
    requires Enabled(s, a) && s.explicit <= s.threads.Keys
    ensures Next(s, a).explicit <= Next(s, a).threads.Keys
  {
    match a
    case Start(t, op) =>
    case Go(t, reply) => GoKeepsExplicit(s, t, reply); hide Continue;
  }

  lemma GoKeepsExplicit(s: State, t: Thread, reply: Reply)
    requires Enabled(s, Go(t, reply)) && s.explicit <= s.threads.Keys
    ensures Continue(s, t, reply).explicit <= Continue(s, t, reply).threads.Keys
  {
    ThreadsEffect(s, t, reply);
    assert Continue(s, t, reply).explicit <= s.explicit + {t};
  }

  // ----- The objects and the state -----

  /** What there is to see of a stream: its flags and both counts. */
  datatype View = View(exhausted: bool, cancelled: bool, refs: int, inner: int)

  function Seen(x: Stream): View {
    View(x.exhausted, x.cancelled, x.refs, x.inner)
  }

  function Flags(s: State): seq<bool> {
    seq(|s.calls|, c requires 0 <= c < |s.calls| => s.calls[c].cancelled)
  }

  function Views(s: State): seq<View> {
    seq(|s.streams|, e requires 0 <= e < |s.streams| => Seen(s.streams[e]))
  }

  ghost function FlagsOf(calls: seq<C.CallState>): (flags: seq<bool>)
    reads calls
    ensures |flags| == |calls| && forall c :: 0 <= c < |calls| ==> flags[c] == calls[c].cancelled
  {
    seq(|calls|, c requires 0 <= c < |calls| reads calls => calls[c].cancelled)
  }

  ghost function States(readers: seq<C.Reader>): set<object> {
    set r | r in readers :: r.state
  }

  ghost function Inners(readers: seq<C.Reader>): set<object> {
    set r | r in readers :: r.inner
  }

  ghost function ViewsOf(readers: seq<C.Reader>): (views: seq<View>)
    reads readers, States(readers), Inners(readers)
    ensures |views| == |readers|
    ensures forall e :: 0 <= e < |readers| ==> views[e] == ViewOf(readers[e])
  {
    seq(|readers|, e requires 0 <= e < |readers| reads readers, States(readers), Inners(readers) => ViewOf(readers[e]))
  }

  ghost function ViewOf(r: C.Reader): View
    reads r, r.state, r.inner
  {
    View(r.state.exhausted, r.state.cancelled, r.refs, r.inner.refs)
  }

  ghost predicate Apart(calls: seq<C.CallState>, readers: seq<C.Reader>) {
    && (forall i, j :: 0 <= i < j < |calls| ==> calls[i] != calls[j])
    && (forall i, j :: 0 <= i < j < |readers| ==>
          readers[i] != readers[j] && readers[i].state != readers[j].state && readers[i].inner != readers[j].inner)
  }

  /** The call in flight and the current stream are among these objects, and the readers the statement's. */
  ghost predicate Knows(st: C.Statement, calls: seq<C.CallState>, readers: seq<C.Reader>,
                        inFlight: Option<nat>, current: Option<nat>)
    reads st
  {
    && (inFlight.Some? ==> inFlight.value < |calls|) && (current.Some? ==> current.value < |readers|)
    && st.inFlight == (if inFlight.Some? then calls[inFlight.value] else null)
    && st.current == (if current.Some? then readers[current.value].state else null)
    && forall r :: r in readers ==> r.statement == st
  }

  /** The objects of one statement are in state `s`. */
  ghost predicate Represents(st: C.Statement, calls: seq<C.CallState>, readers: seq<C.Reader>, s: State)
    reads st, calls, readers, States(readers), Inners(readers)
  {
    FlagsOf(calls) == Flags(s) && ViewsOf(readers) == Views(s) && Knows(st, calls, readers, s.inFlight, s.current)
  }

  /** A request can go out. */
  ghost predicate CanSend(st: C.Statement, answer: C.Answer)
    reads st, st.canceler
  {
    st.canceler != null && st.canceler.cc.Some? && answer != C.Unbuilt
  }

  /** The call in flight, if any, is marked. */
  function MarkedFlags(flags: seq<bool>, inFlight: Option<nat>): seq<bool> {
    if inFlight.Some? && inFlight.value < |flags| then flags[inFlight.value := true] else flags
  }

  /** The stream is marked. */
  function MarkedViews(views: seq<View>, e: Option<nat>): seq<View> {
    if e.Some? && e.value < |views| then views[e.value := views[e.value].(cancelled := true)] else views
  }

  /** The stream a Close marks: the current one, unless the call needs the cancel or the end was seen. */
  function CloseMarks(flags: seq<bool>, views: seq<View>, inFlight: Option<nat>, current: Option<nat>): Option<nat> {
    if inFlight.Some? && inFlight.value < |flags| && !flags[inFlight.value] then None
    else if current.Some? && current.value < |views| && views[current.value].exhausted then None
    else current
  }

  lemma ClosedViews(s: State, t: Thread)
    requires s.inFlight.Some? ==> s.inFlight.value < |s.calls|
    requires s.current.Some? ==> s.current.value < |s.streams|
    ensures var n := Closed(s, t);
            && Flags(n) == MarkedFlags(Flags(s), s.inFlight)
            && Views(n) == MarkedViews(Views(s), CloseMarks(Flags(s), Views(s), s.inFlight, s.current))
            && n.inFlight == s.inFlight && n.current == s.current && t in n.threads && n.threads[t] == Done
  {
    var n := Closed(s, t);
    assert Flags(n) == MarkedFlags(Flags(s), s.inFlight);
    assert Views(n) == MarkedViews(Views(s), CloseMarks(Flags(s), Views(s), s.inFlight, s.current));
  }

  lemma QueryCancelledViews(s: State, t: Thread)
    requires s.inFlight.Some? ==> s.inFlight.value < |s.calls|
    requires s.current.Some? ==> s.current.value < |s.streams|
    ensures var n := QueryCancelled(s, t);
            && Flags(n) == MarkedFlags(Flags(s), s.inFlight) && Views(n) == MarkedViews(Views(s), s.current)
            && n.inFlight == s.inFlight && n.current == s.current && t in n.threads && n.threads[t] == Done
  {
    hide First;
    var n := QueryCancelled(s, t);
    assert Flags(n) == MarkedFlags(Flags(s), s.inFlight);
    assert Views(n) == MarkedViews(Views(s), s.current);
  }

  /** A stream after one reference was given up. */
  function ReleasedView(x: View): View {
    View(x.exhausted, x.cancelled || (x.refs == 1 && !x.exhausted), x.refs - 1, x.inner - 1)
  }

  lemma ReleasedViews(s: State, t: Thread, e: nat)
    requires e < |s.streams|
    ensures var n := Released(s, t, e);
            && Flags(n) == Flags(s) && Views(n) == Views(s)[e := ReleasedView(Views(s)[e])]
            && n.inFlight == s.inFlight && n.current == s.current && t in n.threads && n.threads[t] == Done
  {
    var n := Released(s, t, e);
    assert Flags(n) == Flags(s);
    assert Views(n) == Views(s)[e := ReleasedView(Views(s)[e])];
  }

  /** What a Close does to all the objects there are. */
  method CloseOnAll(st: C.Statement, ghost calls: seq<C.CallState>, ghost readers: seq<C.Reader>,
                    ghost inFlight: Option<nat>, ghost current: Option<nat>, answer: C.Answer)
    returns (ghost due: bool)
    requires Apart(calls, readers) && Knows(st, calls, readers, inFlight, current)
    modifies st.canceler, st.current, st.inFlight
    ensures due <==>
            || (inFlight.Some? && !old(FlagsOf(calls))[inFlight.value])
            || (current.Some? && var x := old(ViewsOf(readers))[current.value]; !x.exhausted && !x.cancelled)
    ensures FlagsOf(calls) == MarkedFlags(old(FlagsOf(calls)), inFlight)
    ensures ViewsOf(readers) ==
            var flags, views := old(FlagsOf(calls)), old(ViewsOf(readers));
            MarkedViews(views, CloseMarks(flags, views, inFlight, current))
    ensures Knows(st, calls, readers, inFlight, current)
    ensures st.Sent() == old(st.Sent()) + st.Request(due, answer)
    ensures st.canceler != null ==> st.canceler.cc == old(st.canceler.cc)
  {
    due := st.Close(answer);
  }

  /** What a CancelQuery does to all the objects there are. */
  method CancelQueryOnAll(st: C.Statement, ghost calls: seq<C.CallState>, ghost readers: seq<C.Reader>,
                          ghost inFlight: Option<nat>, ghost current: Option<nat>, answer: C.Answer)
    requires Apart(calls, readers) && Knows(st, calls, readers, inFlight, current) && st.canceler != null
    modifies st.canceler, st.current, st.inFlight
    ensures FlagsOf(calls) == MarkedFlags(old(FlagsOf(calls)), inFlight)
    ensures ViewsOf(readers) == MarkedViews(old(ViewsOf(readers)), current)
    ensures Knows(st, calls, readers, inFlight, current)
    ensures st.Sent() == old(st.Sent()) + st.Request(true, answer) && st.canceler.cc == old(st.canceler.cc)
  {
    var _ := st.CancelQuery(answer);
  }

  /** What a Release does to all the objects there are. */
  method ReleaseOnAll(st: C.Statement, ghost calls: seq<C.CallState>, readers: seq<C.Reader>,
                      ghost inFlight: Option<nat>, ghost current: Option<nat>, e: nat, answer: C.Answer)
    requires Apart(calls, readers) && Knows(st, calls, readers, inFlight, current)
    requires e < |readers| && readers[e].Valid() && readers[e].refs > 0
    modifies st.canceler, readers[e], readers[e].inner, readers[e].state
    ensures FlagsOf(calls) == old(FlagsOf(calls)) && readers[e].Valid()
    ensures var views := old(ViewsOf(readers)); ViewsOf(readers) == views[e := ReleasedView(views[e])]
    ensures Knows(st, calls, readers, inFlight, current)
    ensures var x := old(ViewsOf(readers))[e];
            st.Sent() == old(st.Sent()) + st.Request(x.refs == 1 && !x.exhausted && !x.cancelled, answer)
    ensures st.canceler != null ==> st.canceler.cc == old(st.canceler.cc)
  {
    assert readers[e] in readers;
    readers[e].Release(answer);
  }

  /** `Close` is its steps: the objects end in the state they lead to, and as many requests go out. */
  method CloseIsItsSteps(st: C.Statement, ghost calls: seq<C.CallState>, ghost readers: seq<C.Reader>,
                         ghost s: State, ghost t: Thread, answer: C.Answer)
    requires Represents(st, calls, readers, s) && Apart(calls, readers)
    requires Inv(s) && Enabled(s, Start(t, Close))
    modifies st.canceler, st.current, st.inFlight
    ensures var n := Finish(Begin(s, t, Close), t, 6);
            && t in n.threads && n.threads[t] == Done && Represents(st, calls, readers, n)
            && (CanSend(st, answer) ==> |st.Sent()| == |old(st.Sent())| + Requests(n) - Requests(s))
  {
    CloseAlone(s, t);
    ClosedRequests(s, t);
    ClosedViews(s, t);
    hide Inv, Finish, Begin, Requests, Enabled, Closed, Apart, Knows, MarkedFlags, MarkedViews, CloseMarks;
    assert Knows(st, calls, readers, s.inFlight, s.current);
    KnownInRange(st, calls, readers, s);
    var _ := CloseOnAll(st, calls, readers, s.inFlight, s.current, answer);
  }

  lemma KnownInRange(st: C.Statement, calls: seq<C.CallState>, readers: seq<C.Reader>, s: State)
    requires Represents(st, calls, readers, s)
    ensures s.inFlight.Some? ==> s.inFlight.value < |s.calls|
    ensures s.current.Some? ==> s.current.value < |s.streams|
    ensures |calls| == |s.calls| && |readers| == |s.streams|
  {
    assert |Flags(s)| == |s.calls| && |Views(s)| == |s.streams|;
  }

  /** `Release` is its steps. */
  method ReleaseIsItsSteps(st: C.Statement, ghost calls: seq<C.CallState>, readers: seq<C.Reader>,
                           ghost s: State, ghost t: Thread, e: nat, answer: C.Answer)
    requires Represents(st, calls, readers, s) && Apart(calls, readers) && e < |readers|
    requires Enabled(s, Start(t, Release(e))) && readers[e].Valid()
    modifies st.canceler, readers[e], readers[e].inner, readers[e].state
    ensures var n := Finish(Begin(s, t, Release(e)), t, 4);
            && t in n.threads && n.threads[t] == Done && Represents(st, calls, readers, n) && readers[e].Valid()
            && (CanSend(st, answer) ==> |st.Sent()| == |old(st.Sent())| + Requests(n) - Requests(s))
  {
    ReleaseAlone(s, t, e);
    ReleasedRequests(s, t, e);
    ReleasedViews(s, t, e);
    assert Views(s)[e] == ViewOf(readers[e]) && s.streams[e].refs > 0;
    hide Finish, Begin, Requests, Enabled, Released, Apart, Knows, ReleasedView;
    ReleaseOnAll(st, calls, readers, s.inFlight, s.current, e, answer);
  }

  /** `CancelQuery` is its steps. */
  method CancelQueryIsItsSteps(st: C.Statement, ghost calls: seq<C.CallState>, ghost readers: seq<C.Reader>,
                               ghost s: State, ghost t: Thread, answer: C.Answer)
    requires Represents(st, calls, readers, s) && Apart(calls, readers) && st.canceler != null
    requires Inv(s) && Enabled(s, Start(t, CancelQuery)) && t !in s.explicit
    modifies st.canceler, st.current, st.inFlight
    ensures var n := Finish(Begin(s, t, CancelQuery), t, 4);
            && t in n.threads && n.threads[t] == Done && Represents(st, calls, readers, n)
            && (CanSend(st, answer) ==> |st.Sent()| == |old(st.Sent())| + Requests(n) - Requests(s))
  {
    CancelQueryAlone(s, t);
    QueryCancelledRequests(s, t);
    KnownInRange(st, calls, readers, s);
    QueryCancelledViews(s, t);
    hide Inv, Finish, Begin, Requests, Enabled, QueryCancelled, Apart, Knows, MarkedFlags, MarkedViews;
    CancelQueryOnAll(st, calls, readers, s.inFlight, s.current, answer);
  }

  // ----- Next, Retain and the execution itself -----

  function ViewedAs(s: State, e: nat, x: Stream, t: Thread): State
    requires e < |s.streams|
  {
    At(WithStream(s, e, x), t, Done)
  }

  lemma ViewedAsViews(s: State, e: nat, x: Stream, t: Thread)
    requires e < |s.streams|
    ensures var n := ViewedAs(s, e, x, t);
            && Flags(n) == Flags(s) && Views(n) == Views(s)[e := Seen(x)]
            && n.inFlight == s.inFlight && n.current == s.current && t in n.threads && n.threads[t] == Done
  {
    var n := ViewedAs(s, e, x, t);
    assert Flags(n) == Flags(s);
    assert Views(n) == Views(s)[e := Seen(x)];
  }

  /** A read that reports the end, and that nobody interrupts. */
  lemma NextAlone(s: State, t: Thread, e: nat)
    requires Enabled(s, Start(t, NextEnds(e)))
    ensures Finish(Begin(s, t, NextEnds(e)), t, 1) == ViewedAs(s, e, s.streams[e].(exhausted := true), t)
  {
    var n := WithStream(s, e, s.streams[e].(exhausted := true));
    FinishStep(At(s, t, StoreExhausted(e)), t, 1);
    AtAgain(n, t, StoreExhausted(e), Done);
    FinishDone(At(n, t, Done), t, 0);
  }

  lemma RetainAlone(s: State, t: Thread, e: nat)
    requires Enabled(s, Start(t, Retain(e))) && t !in s.streams[e].entering
    ensures var x := s.streams[e];
            Finish(Begin(s, t, Retain(e)), t, 1) == ViewedAs(s, e, x.(refs := x.refs + 1, inner := x.inner + 1), t)
  {
    var x := s.streams[e];
    var a := WithStream(s, e, x.(refs := x.refs + 1, entering := x.entering + {t}));
    var n := WithStream(s, e, x.(refs := x.refs + 1, inner := x.inner + 1));
    assert x.entering + {t} - {t} == x.entering;
    FinishStep(At(a, t, InnerRetain(e)), t, 1);
    assert a.streams[e := n.streams[e]] == n.streams;
    AtAgain(n, t, InnerRetain(e), Done);
    FinishDone(At(n, t, Done), t, 0);
  }

  /** What a read does to all the objects there are. */
  method NextOnAll(st: C.Statement, ghost calls: seq<C.CallState>, readers: seq<C.Reader>,
                   ghost inFlight: Option<nat>, ghost current: Option<nat>, e: nat) returns (ok: bool)
    requires Apart(calls, readers) && Knows(st, calls, readers, inFlight, current)
    requires e < |readers| && readers[e].Valid()
    modifies readers[e].inner, readers[e].state
    ensures ok <==> old(readers[e].inner.left) > 0
    ensures FlagsOf(calls) == old(FlagsOf(calls)) && readers[e].Valid()
    ensures var views := old(ViewsOf(readers));
            ViewsOf(readers) == if ok then views else views[e := views[e].(exhausted := true)]
    ensures Knows(st, calls, readers, inFlight, current)
  {
    assert readers[e] in readers;
    ok := readers[e].Next();
  }

  /** `Next` is its step if it reports the end, and otherwise nothing that another thread could see. */
  method NextIsItsSteps(st: C.Statement, ghost calls: seq<C.CallState>, readers: seq<C.Reader>,
                        ghost s: State, ghost t: Thread, e: nat) returns (ok: bool)
    requires Represents(st, calls, readers, s) && Apart(calls, readers) && e < |readers|
    requires Enabled(s, Start(t, NextEnds(e))) && readers[e].Valid()
    modifies readers[e].inner, readers[e].state
    ensures ok <==> old(readers[e].inner.left) > 0
    ensures readers[e].Valid() && st.Sent() == old(st.Sent())
    ensures ok ==> Represents(st, calls, readers, s)
    ensures !ok ==>
              var n := Finish(Begin(s, t, NextEnds(e)), t, 1);
              && t in n.threads && n.threads[t] == Done && Represents(st, calls, readers, n)
              && n.streams[e].exhausted && Requests(n) == Requests(s)
  {
    NextAlone(s, t, e);
    ViewedAsViews(s, e, s.streams[e].(exhausted := true), t);
    OneStreamMore(s.streams, e, s.streams[e].(exhausted := true));
    hide Finish, Begin, Enabled, Apart, Knows, CallRequests, StreamRequests;
    assert Views(s)[e] == ViewOf(readers[e]);
    ok := NextOnAll(st, calls, readers, s.inFlight, s.current, e);
  }

  /** What a Retain does to all the objects there are. */
  method RetainOnAll(st: C.Statement, ghost calls: seq<C.CallState>, readers: seq<C.Reader>,
                     ghost inFlight: Option<nat>, ghost current: Option<nat>, e: nat)
    requires Apart(calls, readers) && Knows(st, calls, readers, inFlight, current)
    requires e < |readers| && readers[e].Valid()
    modifies readers[e], readers[e].inner
    ensures FlagsOf(calls) == old(FlagsOf(calls)) && readers[e].Valid()
    ensures var views := old(ViewsOf(readers)); var x := views[e];
            ViewsOf(readers) == views[e := x.(refs := x.refs + 1, inner := x.inner + 1)]
    ensures Knows(st, calls, readers, inFlight, current)
  {
    assert readers[e] in readers;
    readers[e].Retain();
  }

  /** `Retain` is its steps. */
  method RetainIsItsSteps(st: C.Statement, ghost calls: seq<C.CallState>, readers: seq<C.Reader>,
                          ghost s: State, ghost t: Thread, e: nat)
    requires Represents(st, calls, readers, s) && Apart(calls, readers) && e < |readers| && e < |s.streams|
    requires Enabled(s, Start(t, Retain(e))) && Counted(s, e) && readers[e].Valid()
    modifies readers[e], readers[e].inner
    ensures var n := Finish(Begin(s, t, Retain(e)), t, 1);
            && t in n.threads && n.threads[t] == Done && Represents(st, calls, readers, n) && readers[e].Valid()
            && Requests(n) == Requests(s) && st.Sent() == old(st.Sent())
  {
    ghost var x := s.streams[e];
    assert t !in x.entering;
    RetainAlone(s, t, e);
    ViewedAsViews(s, e, x.(refs := x.refs + 1, inner := x.inner + 1), t);
    OneStreamMore(s.streams, e, x.(refs := x.refs + 1, inner := x.inner + 1));
    hide Finish, Begin, Enabled, Apart, Knows, Counted, CallRequests, StreamRequests;
    assert Views(s)[e] == ViewOf(readers[e]);
    RetainOnAll(st, calls, readers, s.inFlight, s.current, e);
  }

  /** The state after an execution that nobody interrupts. */
  function ExecutedAlone(s: State, t: Thread, reply: Reply): State {
    var c, e := |s.calls|, |s.streams|;
    var made := if reply.Streams? then [NEW_STREAM] else [];
    At(s, t, Done).(calls := s.calls + [NEW_CALL], streams := s.streams + made, inFlight := None, executing := None,
                    current := if reply.Streams? then Some(e) else s.current,
                    latest := Execution(c, if reply.Streams? then Streaming(e) else Returned))
  }

  lemma ExecuteAlone(s: State, t: Thread, reply: Reply)
    requires Enabled(s, Start(t, Execute))
    ensures var a := Begin(s, t, Execute);
            && Enabled(a, Go(t, reply)) && Enabled(Continue(a, t, reply), Go(t, Fails))
            && Continue(Continue(a, t, reply), t, Fails) == ExecutedAlone(s, t, reply)
  {
    var a := Begin(s, t, Execute);
    var b := Continue(a, t, reply);
    AtAgain(s, t, ExecRpc(|s.calls|), ExecEnd(|s.calls|));
    AtAgain(s, t, ExecEnd(|s.calls|), Done);
    assert b.threads == s.threads[t := ExecEnd(|s.calls|)];
    if !reply.Streams? {
      assert s.streams + [] == s.streams;
    }
  }

  lemma ExecutedViews(s: State, t: Thread, reply: Reply)
    ensures var n := ExecutedAlone(s, t, reply);
            && Flags(n) == Flags(s) + [false]
            && Views(n) == Views(s) + (if reply.Streams? then [View(false, false, 1, 1)] else [])
            && n.inFlight == None && n.current == (if reply.Streams? then Some(|s.streams|) else s.current)
            && t in n.threads && n.threads[t] == Done
  {
    var n := ExecutedAlone(s, t, reply);
    assert Flags(n) == Flags(s) + [false];
    assert Views(n) == Views(s) + (if reply.Streams? then [View(false, false, 1, 1)] else []);
  }

  /** What an execution does to all the objects there are, and which it makes. */
  method ExecuteOnAll(st: C.Statement, ghost calls: seq<C.CallState>, ghost readers: seq<C.Reader>,
                      ghost inFlight: Option<nat>, ghost current: Option<nat>, streams: bool, batches: nat)
    returns (ghost calls': seq<C.CallState>, ghost readers': seq<C.Reader>, r: C.Reader?)
    requires Apart(calls, readers) && Knows(st, calls, readers, inFlight, current)
    modifies st
    ensures streams <==> r != null
    ensures r != null ==> readers' == readers + [r] && r.Valid() && r.inner.left == batches
    ensures r == null ==> readers' == readers
    ensures Apart(calls', readers') && |calls'| == |calls| + 1 && calls <= calls'
    ensures FlagsOf(calls') == old(FlagsOf(calls)) + [false]
    ensures ViewsOf(readers') == old(ViewsOf(readers)) + if streams then [View(false, false, 1, 1)] else []
    ensures Knows(st, calls', readers', None, if streams then Some(|readers|) else current)
    ensures st.Sent() == old(st.Sent())
  {
    var c := st.BeginCall();
    calls', readers', r := calls + [c], readers, null;
    if streams {
      var upstream := new C.UpstreamReader(batches);
      r := st.TrackStreaming(upstream);
      readers' := readers + [r];
    }
    st.EndCall(c);
  }

  /** The bracket that both kinds of execution put around the blocking call, and the stream that one of them
      hands out: a fresh marker in flight during the call, none after it. */
  method ExecuteIsItsSteps(st: C.Statement, ghost calls: seq<C.CallState>, ghost readers: seq<C.Reader>,
                           ghost s: State, ghost t: Thread, streams: bool, batches: nat)
    returns (ghost calls': seq<C.CallState>, ghost readers': seq<C.Reader>, r: C.Reader?)
    requires Represents(st, calls, readers, s) && Apart(calls, readers) && Enabled(s, Start(t, Execute))
    modifies st
    ensures var reply := if streams then Streams else Returns;
            var n := Continue(Continue(Begin(s, t, Execute), t, reply), t, Fails);
            && t in n.threads && n.threads[t] == Done && Represents(st, calls', readers', n)
    ensures Apart(calls', readers') && |calls'| == |calls| + 1 && calls <= calls'
    ensures streams <==> r != null
    ensures r != null ==> readers' == readers + [r] && r.Valid() && r.inner.left == batches
    ensures r == null ==> readers' == readers
    ensures st.Sent() == old(st.Sent())
  {
    ghost var reply := if streams then Streams else Returns;
    ExecuteAlone(s, t, reply);
    ExecutedViews(s, t, reply);
    KnownInRange(st, calls, readers, s);
    hide Apart, Knows, Begin, Continue, Enabled, ExecutedAlone;
    calls', readers', r := ExecuteOnAll(st, calls, readers, s.inFlight, s.current, streams, batches);
  }
}
