/**
The cancel code of go/gizmosql/cancel.go and go/gizmosql/driver.go as one thread runs it: flags,
reference counts and the in-flight marker, changed in place. Module Cancel has the interleavings.
*/
module CancelReader {
  import opened Wrappers

  /** How the request for a cancel fares: it cannot be built, the call fails, or the server answers. */
  datatype Answer = Unbuilt | RpcFailed | Cancelled | Cancelling | NotCancellable | Unspecified

  datatype Status = Ok | NoCanceler | InvalidState | Internal | Io | Unknown

  /** The status a caller gets to see once a connection is known. */
  function StatusOf(answer: Answer): Status {
    match answer
    case Unbuilt => Internal
    case RpcFailed => Io
    case Cancelled => Ok
    case Cancelling => Ok
    case NotCancellable => InvalidState
    case Unspecified => Unknown
  }

  /** `sessionCanceler`; `sent` records the queries of the cancel requests that went out. */
  class SessionCanceler {
    var cc: Option<nat>
    var sent: seq<string>

    constructor ()
      ensures cc == None && sent == []
    {
      cc, sent := None, [];
    }

    /** `observeConn`: the connection seen last counts, and a nil one is not a connection. */
    method ObserveConn(seen: Option<nat>)
      modifies this`cc
      ensures cc == if seen.None? then old(cc) else seen
    {
      if seen.None? {
        return;
      }
      cc := seen;
    }

    method Cancel(query: string, answer: Answer) returns (status: Status)
      modifies this`sent
      ensures status == if cc.None? then InvalidState else StatusOf(answer)
      ensures status == Ok <==> cc.Some? && (answer == Cancelled || answer == Cancelling)
      ensures status == InvalidState <==> cc.None? || answer == NotCancellable
      ensures cc.Some? ==> (status == Internal <==> answer == Unbuilt) && (status == Io <==> answer == RpcFailed)
      ensures cc.Some? ==> (status == Unknown <==> answer == Unspecified)
      ensures sent == old(sent) + if cc.Some? && answer != Unbuilt then [query] else []
    {
      if cc.None? {
        return InvalidState;
      }
      if answer == Unbuilt {
        return Internal;
      }
      sent := sent + [query];
      match answer {
        case RpcFailed => return Io;
        case Cancelled => return Ok;
        case Cancelling => return Ok;
        case NotCancellable => return InvalidState;
        case _ => return Unknown;
      }
    }
  }

  /** `execState`. */
  class ExecState {
    var exhausted: bool
    var cancelled: bool

    constructor ()
      ensures !exhausted && !cancelled
    {
      exhausted, cancelled := false, false;
    }

    /** Whether a cancel is still due; asking claims it. */
    method Abandoned() returns (due: bool)
      modifies this`cancelled
      ensures due <==> !exhausted && !old(cancelled)
      ensures cancelled <==> old(cancelled) || !exhausted
    {
      if exhausted {
        return false;
      }
      due := !cancelled;
      cancelled := true;
    }
  }

  class CallState {
    var cancelled: bool

    constructor ()
      ensures !cancelled
    {
      cancelled := false;
    }
  }

  /** A streaming reader of the upstream driver with some batches left. */
  class UpstreamReader {
    var refs: nat
    var left: nat

    constructor (batches: nat)
      ensures refs == 1 && left == batches
    {
      refs, left := 1, batches;
    }

    method Next() returns (ok: bool)
      modifies this`left
      ensures ok <==> old(left) > 0
      ensures left == if ok then old(left) - 1 else 0
    {
      ok := left > 0;
      if ok {
        left := left - 1;
      }
    }
  }

  /** The statement's side: what is current, what is in flight, and whom to ask for a cancel. */
  class Statement {
    const canceler: SessionCanceler?
    var query: string
    var current: ExecState?
    var inFlight: CallState?

    constructor (canceler: SessionCanceler?, query: string)
      ensures this.canceler == canceler && this.query == query && current == null && inFlight == null
    {
      this.canceler, this.query, current, inFlight := canceler, query, null, null;
    }

    /** What a cancel adds to the requests that went out. */
    ghost function Request(due: bool, answer: Answer): seq<string>
      reads this, canceler
    {
      if due && canceler != null && canceler.cc.Some? && answer != Unbuilt then [query] else []
    }

    ghost function Sent(): seq<string>
      reads this, canceler
    {
      if canceler == null then [] else canceler.sent
    }

    method BeginCall() returns (c: CallState)
      modifies this`inFlight
      ensures fresh(c) && inFlight == c && !c.cancelled
    {
      c := new CallState();
      inFlight := c;
    }

    /** Only the call's own marker is cleared. */
    method EndCall(c: CallState)
      modifies this`inFlight
      ensures inFlight == if old(inFlight) == c then null else old(inFlight)
    {
      if inFlight == c {
        inFlight := null;
      }
    }

    method ClaimInFlight() returns (claimed: bool)
      modifies inFlight
      ensures claimed <==> inFlight != null && !old(inFlight.cancelled)
      ensures inFlight != null ==> inFlight.cancelled
    {
      if inFlight == null {
        return false;
      }
      claimed := !inFlight.cancelled;
      inFlight.cancelled := true;
    }

    /** Best effort: without a canceler, or before a connection was seen, nothing is sent, and the answer
        does not matter. */
    method CancelAbandoned(answer: Answer)
      modifies canceler
      ensures Sent() == old(Sent()) + Request(true, answer) && (canceler != null ==> canceler.cc == old(canceler.cc))
    {
      if canceler == null {
        return;
      }
      var _ := canceler.Cancel(query, answer);
    }

    /** `CancelQuery`: marks both phases as cancelled before it asks the server. */
    method CancelQuery(answer: Answer) returns (status: Status)
      modifies canceler, current, inFlight
      ensures status == if canceler == null then NoCanceler
                        else if canceler.cc.None? then InvalidState else StatusOf(answer)
      ensures status == Ok <==> canceler != null && canceler.cc.Some? && answer in {Cancelled, Cancelling}
      ensures Sent() == old(Sent()) + Request(true, answer) && (canceler != null ==> canceler.cc == old(canceler.cc))
      ensures current != null ==>
                && (current.cancelled <==> old(current.cancelled) || canceler != null)
                && current.exhausted == old(current.exhausted)
      ensures inFlight != null ==> (inFlight.cancelled <==> old(inFlight.cancelled) || canceler != null)
    {
      if canceler == null {
        return NoCanceler;
      }
      if current != null {
        current.cancelled := true;
      }
      if inFlight != null {
        inFlight.cancelled := true;
      }
      status := canceler.Cancel(query, answer);
    }

    /** The cancel part of `Close`: one request at most, for the blocked call before the stream. */
    method Close(answer: Answer) returns (ghost due: bool)
      modifies canceler, current, inFlight
      ensures due <==>
              || (inFlight != null && !old(inFlight.cancelled))
              || (current != null && !current.exhausted && !old(current.cancelled))
      ensures Sent() == old(Sent()) + Request(due, answer) && (canceler != null ==> canceler.cc == old(canceler.cc))
      ensures inFlight != null ==> inFlight.cancelled
      ensures current != null ==> current.exhausted == old(current.exhausted)
      ensures current != null ==>
                var callClaimed := inFlight != null && !old(inFlight.cancelled);
                current.cancelled <==> old(current.cancelled) || (!callClaimed && !current.exhausted)
    {
      due := false;
      var claimed := ClaimInFlight();
      if claimed {
        CancelAbandoned(answer);
        due := true;
      } else if current != null {
        var abandoned := current.Abandoned();
        if abandoned {
          CancelAbandoned(answer);
          due := true;
        }
      }
    }

    /** `trackStreaming`. */
    method TrackStreaming(reader: UpstreamReader) returns (r: Reader)
      modifies this`current
      ensures fresh(r) && fresh(r.state) && r.statement == this && r.inner == reader && r.refs == 1
      ensures current == r.state && !r.state.exhausted && !r.state.cancelled
    {
      var state := new ExecState();
      current := state;
      r := new Reader(reader, state, this);
    }
  }

  /** `cancelReader`: its count is the number of references it holds on the reader it wraps. */
  class Reader {
    const inner: UpstreamReader
    const state: ExecState
    const statement: Statement
    var refs: int

    constructor (inner: UpstreamReader, state: ExecState, statement: Statement)
      ensures this.inner == inner && this.state == state && this.statement == statement && refs == 1
    {
      this.inner, this.state, this.statement, refs := inner, state, statement, 1;
    }

    ghost predicate Valid()
      reads this, inner
    {
      refs == inner.refs
    }

    method Retain()
      requires Valid()
      modifies this, inner`refs
      ensures Valid() && refs == old(refs) + 1
    {
      refs := refs + 1;
      inner.refs := inner.refs + 1;
    }

    /** The release that gives up the last reference asks for a cancel if one is still due. */
    method Release(answer: Answer)
      requires Valid() && refs > 0
      modifies this, inner`refs, state`cancelled, statement.canceler
      ensures Valid() && refs == old(refs) - 1
      ensures var last := refs == 0;
              && (state.cancelled <==> old(state.cancelled) || (last && !state.exhausted))
              && statement.Sent() ==
                   old(statement.Sent()) + statement.Request(last && !state.exhausted && !old(state.cancelled), answer)
      ensures statement.canceler != null ==> statement.canceler.cc == old(statement.canceler.cc)
    {
      refs := refs - 1;
      if refs == 0 {
        var due := state.Abandoned();
        if due {
          statement.CancelAbandoned(answer);
        }
      }
      inner.refs := inner.refs - 1;
    }

    method Next() returns (ok: bool)
      requires Valid()
      modifies inner`left, state`exhausted
      ensures Valid() && (ok <==> old(inner.left) > 0)
      ensures inner.left == if ok then old(inner.left) - 1 else 0
      ensures state.exhausted <==> old(state.exhausted) || !ok
    {
      ok := inner.Next();
      if !ok {
        state.exhausted := true;
      }
    }
  }

  /** The stream is released and the statement closed, in either order. */
  method End(s: Statement, r: Reader, closeFirst: bool, answer: Answer)
    requires s.canceler != null && s.inFlight == null && s.current == r.state && r.statement == s
    requires r.Valid() && r.refs == 1 && !r.state.cancelled
    modifies s.canceler, r, r.inner`refs, r.state
    ensures s.Sent() == old(s.Sent()) + s.Request(!old(r.state.exhausted), answer)
    ensures r.Valid() && r.refs == 0 && s.canceler.cc == old(s.canceler.cc)
  {
    if closeFirst {
      var _ := s.Close(answer);
      r.Release(answer);
    } else {
      r.Release(answer);
      var _ := s.Close(answer);
    }
  }

  /**
  One streaming execution from start to end, as the C shim drives it: the reader is exported, which
  retains it, and the call's own reference is dropped; the caller then reads `pulls` times and releases
  the stream; the statement is closed before or after that. A cancel goes out exactly once if the end of
  the result was not seen, and never otherwise.
  */
  method OneExecution(s: Statement, batches: nat, pulls: nat, closeFirst: bool, answer: Answer)
    requires s.canceler != null && s.inFlight == null
    modifies s, s.canceler
    ensures s.Sent() == old(s.Sent()) + s.Request(pulls <= batches, answer)
    ensures s.inFlight == null
  {
    var call := s.BeginCall();
    var upstream := new UpstreamReader(batches);
    var r := s.TrackStreaming(upstream);
    s.EndCall(call);
    r.Retain();
    r.Release(answer);
    var i := 0;
    while i < pulls
      invariant 0 <= i <= pulls && r.Valid() && r.refs == 1 && r.inner == upstream
      invariant upstream.left == (if i < batches then batches - i else 0)
      invariant r.state.exhausted <==> i > batches
      invariant !r.state.cancelled
      modifies upstream, r.state
    {
      var _ := r.Next();
      i := i + 1;
    }
    End(s, r, closeFirst, answer);
  }
}
