/**
`ExecuteQuery` and `ExecuteUpdate` of go/gizmosql/driver.go as the sequence of requests they make to the
lazy server, proved to have together the one effect that `Execution.Submit` describes.
*/
module ExecuteQuery {
  import opened Wrappers
  import Inner
  import SqlScanner
  import opened StatementSpec
  import opened Execution
  import opened ExecutionOutcomes

  /** What the caller gets: an error, a reader over what is known already, or a stream to be read. */
  datatype Answer = NoAnswer | Complete | Streaming(call: nat)

  /** The session's connection to the server. */
  class Wire {
    var srv: Server

    constructor ()
      ensures srv == Server([], [])
    {
      srv := Server([], []);
    }

    /** The call number of a request that had no effect. */
    method Refuse(writes: bool)
      modifies this
      ensures srv == Append(old(srv), Failed(writes))
    {
      srv := Append(srv, Failed(writes));
    }

    /** DoPut: the work is done before the call returns, unless the call breaks. */
    method DoPut(w: Wrapper, writes: bool, fault: Fault) returns (ok: bool)
      modifies this
      ensures srv == Submit(old(srv), w, Put, writes, fault)
      ensures ok <==> fault.Fine? && Inner.Execution(w.inner).Some?
    {
      var work := Inner.Execution(w.inner);
      if work.None? || fault.Refused? {
        Refuse(writes);
        return false;
      }
      ok := fault.Fine?;
      srv := Append(srv, Exec(work.value, Inner.Times(w.inner), writes, true, ok, false,
                              if fault.Broken? then fault.status else Finished, false, false));
    }

    /** GetFlightInfo: the server plans the work and does none of it. */
    method GetFlightInfo(w: Wrapper, writes: bool, fails: bool) returns (call: Option<nat>)
      modifies this
      ensures call.None? <==> fails || Inner.Execution(w.inner).None?
      ensures call.None? ==> srv == Append(old(srv), Failed(writes))
      ensures call.Some? ==>
                && call.value == |old(srv).execs|
                && srv == Append(old(srv), Exec(Inner.Execution(w.inner).value, Inner.Times(w.inner), writes,
                                                false, true, false, Planned, false, false))
                && srv.log == old(srv).log
    {
      var work := Inner.Execution(w.inner);
      if work.None? || fails {
        Refuse(writes);
        return None;
      }
      srv := Append(srv, Exec(work.value, Inner.Times(w.inner), writes, false, true, false, Planned, false, false));
      return Some(|srv.execs| - 1);
    }

    /** Reading a planned stream to its end, or until it breaks. */
    method ReadAll(call: nat, fault: Fault) returns (ok: bool)
      requires call < |srv.execs| && srv.execs[call].status.Planned?
      modifies this
      ensures ok <==> !fault.Broken?
      ensures var x := old(srv).execs[call].(eager := true, ok := ok,
                                             status := if fault.Broken? then fault.status else Finished);
              srv == Server(old(srv).execs[call := x],
                            old(srv).log + if Ran(x.status) then Repeat(Effect(call, x.work), x.times) else [])
    {
      ok := !fault.Broken?;
      var status := if fault.Broken? then fault.status else Finished;
      if Ran(status) {
        srv := Start(srv, call);
      } else {
        assert srv.log + [] == srv.log;
      }
      srv := SetExec(srv, call, srv.execs[call].(eager := true, ok := ok, status := status));
    }

    /** The caller now holds the reader of a planned stream. */
    method HandOut(call: nat)
      requires call < |srv.execs|
      modifies this
      ensures srv == SetExec(old(srv), call, old(srv).execs[call].(handed := true))
    {
      srv := SetExec(srv, call, srv.execs[call].(handed := true));
    }

    /** A plan whose stream the caller gets. */
    method Stream(w: Wrapper, writes: bool, fault: Fault) returns (a: Answer)
      modifies this
      ensures srv == Submit(old(srv), w, Lazy, writes, fault)
      ensures a == if fault.Fine? && Inner.Execution(w.inner).Some? then Streaming(|old(srv).execs|) else NoAnswer
    {
      var call := GetFlightInfo(w, writes, !fault.Fine?);
      if call.None? {
        return NoAnswer;
      }
      HandOut(call.value);
      return Streaming(call.value);
    }

    /** A plan whose stream is drained before the call returns. */
    method Drain(w: Wrapper, writes: bool, fault: Fault) returns (a: Answer)
      modifies this
      ensures srv == Submit(old(srv), w, Drained, writes, fault)
      ensures a == if fault.Fine? && Inner.Execution(w.inner).Some? then Complete else NoAnswer
    {
      var call := GetFlightInfo(w, writes, fault.Refused?);
      if call.None? {
        return NoAnswer;
      }
      var ok := ReadAll(call.value, fault);
      return if ok then Complete else NoAnswer;
    }

    /** One statement of the geometry ingest: done, or read to the end, before the next is sent. */
    method Help(h: Helping) returns (ok: bool)
      modifies this
      ensures srv == Helped(old(srv), h) && (ok <==> h.fault.Fine?)
    {
      if h.read {
        var a := Drain(OwnStatement(h.text), false, h.fault);
        return a != NoAnswer;
      }
      ok := DoPut(OwnStatement(h.text), false, h.fault);
    }

    /** The statements of the geometry ingest, one after the other, up to the first that fails. */
    method HelpUntilFailure(helpings: seq<Helping>) returns (ok: bool)
      modifies this
      ensures srv == AllHelped(old(srv), UntilFailure(helpings))
      ensures ok <==> forall h :: h in helpings ==> h.fault.Fine?
    {
      hide Helped;
      for i := 0 to |helpings|
        invariant srv == AllHelped(old(srv), helpings[..i])
        invariant forall j :: 0 <= j < i ==> helpings[j].fault.Fine?
      {
        assert helpings[..i + 1][..i] == helpings[..i];
        ok := Help(helpings[i]);
        if !ok {
          StopsAt(helpings, i);
          return;
        }
      }
      RunsThrough(helpings);
      assert helpings[..|helpings|] == helpings;
      return true;
    }

    /**
    `ExecuteUpdate`: the delegated update, or, when geometry columns are bound for an ingest, the
    redirected one and then the statements of the geometry ingest up to the first that fails, and the drop
    whatever became of them. Only the drop may fail unnoticed. Module GeoIngest says which statements
    these are.
    */
    method ExecuteUpdate(w: Wrapper, fault: Fault, interim: string, helpings: seq<Helping>, drop: Helping)
      returns (ok: bool)
      modifies this
      ensures !TakesGeoPath(w) ==> srv == Submit(old(srv), w, Put, false, fault)
      ensures !TakesGeoPath(w) ==> (ok <==> fault.Fine? && Inner.Execution(w.inner).Some?)
      ensures TakesGeoPath(w) ==>
                var r := Redirected(w, interim);
                var bulk := fault.Fine? && Inner.Execution(r.inner).Some?;
                && srv == AllHelped(Submit(old(srv), r, Put, false, fault),
                                    if bulk then UntilFailure(helpings) + [drop] else [])
                && (ok <==> bulk && forall h :: h in helpings ==> h.fault.Fine?)
    {
      hide Submit, Helped, TakesGeoPath, Redirected;
      if !TakesGeoPath(w) {
        ok := DoPut(w, false, fault);
        return;
      }
      ok := DoPut(Redirected(w, interim), false, fault);
      if !ok {
        return;
      }
      ok := HelpUntilFailure(helpings);
      assert (UntilFailure(helpings) + [drop])[..|UntilFailure(helpings)|] == UntilFailure(helpings);
      var _ := Help(drop);
    }

    /**
    `ExecuteQuery`. A statement whose first keyword is one of DDL/DML never leaves a stream behind, and an
    answer means that its work is done.
    */
    method Execute(w: Wrapper, fault: Fault) returns (a: Answer)
      modifies this
      ensures srv == Submit(old(srv), w, RouteOf(w), RoutedEagerly(w), fault)
      ensures a != NoAnswer <==> fault.Fine? && Inner.Execution(w.inner).Some? && !RouteOf(w).Crash?
      ensures a.Streaming? <==> a != NoAnswer && RouteOf(w).Lazy?
      ensures WritesEagerly(w) ==> !a.Streaming? && !RouteOf(w).Crash?
      ensures (w.query == "" || w.ingest.target != "") && fault.Fine? && Inner.Execution(w.inner).Some? ==>
                a == Streaming(|old(srv).execs|) && HandsOut(old(srv), w, srv)
      ensures a == if !fault.Fine? || Inner.Execution(w.inner).None? then NoAnswer
                   else if Streamed(w) then Streaming(|old(srv).execs|)
                   else if RunsAtOnce(w) then Complete
                   else NoAnswer
      ensures a.Streaming? ==> HandsOut(old(srv), w, srv)
      ensures a.Complete? ==> srv.log == old(srv).log + WorkOf(w, |old(srv).execs|)
      ensures a == NoAnswer && (fault.Fine? || fault.Refused?) ==> srv.log == old(srv).log
    {
      RouteExactly(w);
      AnswersAsRouted(srv, w, fault);
      ghost var writes := WritesEagerly(w);
      if writes {
        KeywordStatementsRunEagerly(w);
      }
      var eagerly := RoutedEagerly(w);
      hide WritesEagerly, Submit, HandsOut, KeywordStatement, Returns, Unclassifiable;
      hide SqlScanner.IsDdlDml, SqlScanner.HasReturningClause, SqlScanner.StripSqlComments;
      if w.query == "" || w.ingest.target != "" {
        a := Stream(w, eagerly, fault);
        return;
      }
      match SqlScanner.IsDdlDml(w.query) {
        case Panics =>
          CrashIsRefused(srv, w, eagerly, fault);
          Refuse(eagerly);
          return NoAnswer;
        case Is(true) =>
          var ok := DoPut(w, eagerly, fault);
          return if ok then Complete else NoAnswer;
        case Is(false) =>
          if SqlScanner.HasReturningClause(SqlScanner.StripSqlComments(w.query)) {
            a := Drain(w, eagerly, fault);
          } else {
            a := Stream(w, eagerly, fault);
          }
      }
    }
  }

  /** The work of a statement, once per bound row. */
  function WorkOf(w: Wrapper, call: nat): seq<Effect>
    requires Inner.Execution(w.inner).Some?
  {
    Repeat(Effect(call, Inner.Execution(w.inner).value), Inner.Times(w.inner))
  }

  /** The server has planned the work and done none of it, and the caller holds the stream. */
  predicate HandsOut(before: Server, w: Wrapper, after: Server)
    requires Inner.Execution(w.inner).Some?
  {
    && after.log == before.log && |after.execs| == |before.execs| + 1 && before.execs <= after.execs
    && var x := after.execs[|before.execs|];
       && x.handed && x.status == Planned && !x.exhausted && !x.cancelled
       && x.work == Inner.Execution(w.inner).value && x.times == Inner.Times(w.inner)
  }

  lemma AnswersAsRouted(srv: Server, w: Wrapper, fault: Fault)
    ensures var after := Submit(srv, w, RouteOf(w), RoutedEagerly(w), fault); var fine := fault.Fine?;
            && (fine && Inner.Execution(w.inner).Some? && RouteOf(w).Lazy? ==> HandsOut(srv, w, after))
            && (fine && Inner.Execution(w.inner).Some? && RoutedEagerly(w) ==>
                  after.log == srv.log + WorkOf(w, |srv.execs|))
            && (fault.Refused? || Inner.Execution(w.inner).None? || RouteOf(w).Crash? ==> after.log == srv.log)
  {
    hide RouteOf, Repeat;
  }

  /** A statement the geometry ingest sends on an inner statement of its own. */
  datatype Helping = Helping(text: string, read: bool, fault: Fault)

  function Helped(srv: Server, h: Helping): Server {
    Submit(srv, OwnStatement(h.text), if h.read then Drained else Put, false, h.fault)
  }

  function AllHelped(srv: Server, hs: seq<Helping>): Server {
    if |hs| == 0 then srv else Helped(AllHelped(srv, hs[..|hs| - 1]), hs[|hs| - 1])
  }

  /** The statements that are sent: all up to the first that fails. */
  function UntilFailure(hs: seq<Helping>): seq<Helping> {
    if |hs| == 0 then [] else if !hs[0].fault.Fine? then [hs[0]] else [hs[0]] + UntilFailure(hs[1..])
  }

  lemma {:induction false} StopsAt(hs: seq<Helping>, i: nat)
    requires i < |hs| && !hs[i].fault.Fine? && forall j :: 0 <= j < i ==> hs[j].fault.Fine?
    ensures UntilFailure(hs) == hs[..i + 1]
  {
    if i == 0 {
    } else {
      StopsAt(hs[1..], i - 1);
      assert hs[..i + 1] == [hs[0]] + hs[1..][..i];
    }
  }

  lemma {:induction false} RunsThrough(hs: seq<Helping>)
    requires forall j :: 0 <= j < |hs| ==> hs[j].fault.Fine?
    ensures UntilFailure(hs) == hs
  {
    if |hs| == 0 {
    } else {
      RunsThrough(hs[1..]);
      assert hs == [hs[0]] + hs[1..];
    }
  }

  /** The wrapper once the options of the inner ingest name the interim table. */
  function Redirected(w: Wrapper, interim: string): Wrapper {
    Step(w, GeoRedirect(interim, |RedirectOptions(interim)|), NO_FAULTS).w
  }

  function Failed(writes: bool): Exec {
    Exec(NOTHING, 0, writes, false, false, false, Dead, false, false)
  }

  lemma CrashIsRefused(srv: Server, w: Wrapper, writes: bool, fault: Fault)
    ensures Submit(srv, w, Crash, writes, fault) == Append(srv, Failed(writes))
  {
  }
}
