/**
What an execute call comes to, said without the routing function: which texts go which way, when the work of a
result that streams is done, and that a result given up unread is cancelled.
*/
module ExecutionOutcomes {
  import opened Wrappers
  import Inner
  import opened StatementSpec
  import SqlScanner
  import opened Execution

  // ----- Which way -----

  /** Substrait plans and bulk ingests are delegated untouched. */
  predicate Delegated(w: Wrapper) {
    w.query == "" || w.ingest.target != ""
  }

  /** Comments and ASCII white space removed, the text is other Unicode white space and not empty. */
  predicate Unclassifiable(query: string) {
    var stripped := SqlScanner.StripSqlComments(query);
    stripped != "" && SqlScanner.AllSpace(stripped)
  }

  predicate Returns(query: string) {
    SqlScanner.HasReturningClause(SqlScanner.StripSqlComments(query))
  }

  /** The route of every statement. */
  lemma RouteExactly(w: Wrapper)
    ensures RouteOf(w).Crash? <==> !Delegated(w) && Unclassifiable(w.query)
    ensures RouteOf(w).Put? <==> !Delegated(w) && KeywordStatement(w.query) && !Returns(w.query)
    ensures RouteOf(w).Drained? <==> !Delegated(w) && !Unclassifiable(w.query) && Returns(w.query)
    ensures KeywordStatement(w.query) ==> !Unclassifiable(w.query)
  {
    var stripped := SqlScanner.StripSqlComments(w.query);
    SqlScanner.ClassifierPanicsExactly(w.query);
    SqlScanner.SkipSpaceEmpty(stripped);
    assert SqlScanner.Fields("") == [];
    hide SqlScanner.StripSqlComments, SqlScanner.HasReturningClause, SqlScanner.AllSpace, SqlScanner.IsKeyword;
    hide SqlScanner.TrimRight;
  }

  // ----- When the work is done -----

  /** The action makes the server run a planned stream: it is read, or the server begins by itself. */
  predicate Runs(a: Action, call: nat) {
    (a.Pull? || a.Starts?) && a.call == call
  }

  predicate Started(actions: seq<Action>, i: nat, n: nat, call: nat) {
    exists k :: i < k < n && k < |actions| && Runs(actions[k], call)
  }

  /** The entry as the call made it, with what happened to its stream since. */
  predicate SameWork(x: Exec, y: Exec) {
    y.work == x.work && y.times == x.times && y.handed == x.handed && y.ok == x.ok && y.eager == x.eager
  }

  lemma NextRuns(s: Session, a: Action, call: nat)
    requires Enabled(s, a) && call < |s.srv.execs| && s.srv.execs[call].handed && !s.srv.execs[call].status.Dead?
    ensures call < |Next(s, a).srv.execs|
    ensures var x, y := s.srv.execs[call], Next(s, a).srv.execs[call];
            && SameWork(x, y) && !y.status.Dead?
            && (y.status.Planned? <==> x.status.Planned? && !Runs(a, call))
  {
    hide Step, RouteOf, RoutedEagerly, Inner.Execution, OwnStatement;
  }

  lemma {:induction false} RunRuns(states: seq<Session>, actions: seq<Action>, i: nat, n: nat, call: nat)
    requires IsRun(states, actions) && i < n <= |actions|
    requires call < |states[i + 1].srv.execs| && states[i + 1].srv.execs[call].handed
    requires states[i + 1].srv.execs[call].status.Planned?
    ensures call < |states[n].srv.execs|
    ensures var x, y := states[i + 1].srv.execs[call], states[n].srv.execs[call];
            && SameWork(x, y) && !y.status.Dead?
            && (y.status.Planned? <==> !Started(actions, i, n, call))
  {
    hide Next, Enabled, Runs;
    if n == i + 1 {
    } else {
      RunRuns(states, actions, i, n - 1, call);
      NextRuns(states[n - 1], actions[n - 1], call);
      StartedOnceMore(actions, i, n, call);
    }
  }

  lemma StartedOnceMore(actions: seq<Action>, i: nat, n: nat, call: nat)
    requires i + 1 < n <= |actions|
    ensures Started(actions, i, n, call) <==> Started(actions, i, n - 1, call) || Runs(actions[n - 1], call)
  {
    if Started(actions, i, n, call) {
      var k :| i < k < n && k < |actions| && Runs(actions[k], call);
      assert k < n - 1 ==> Started(actions, i, n - 1, call);
    }
  }

  /** A plan, an ingest, or any other text that is neither a keyword statement nor has RETURNING. */
  predicate Streamed(w: Wrapper) {
    Delegated(w) || (!KeywordStatement(w.query) && !Returns(w.query) && !Unclassifiable(w.query))
  }

  lemma StreamedIsLazy(w: Wrapper)
    ensures RouteOf(w) == Lazy <==> Streamed(w)
  {
    RouteExactly(w);
    hide RouteOf, KeywordStatement, Returns, Unclassifiable;
  }

  /** What such a query does at once: it hands out a stream that is planned, with the work asked for. */
  lemma QueryStreams(s: Session, sid: nat)
    requires Enabled(s, Query(sid, Fine)) && Streamed(s.stmts[sid].w) && Inner.Execution(s.stmts[sid].w.inner).Some?
    ensures var t, w, call := Next(s, Query(sid, Fine)), s.stmts[sid].w, |s.srv.execs|;
            && |t.srv.execs| == call + 1 && t.srv.log == s.srv.log && t.stmts == s.stmts[sid := t.stmts[sid]]
            && t.stmts[sid] == s.stmts[sid].(current := Some(call))
            && var x := t.srv.execs[call];
               && x.handed && x.status.Planned? && x.ok && !x.eager && !x.writes && !x.exhausted && !x.cancelled
               && x.work == Inner.Execution(w.inner).value && x.times == Inner.Times(w.inner)
    ensures Promised(s, Query(sid, Fine)) == []
  {
    StreamedIsLazy(s.stmts[sid].w);
    hide Streamed, RouteOf;
  }

  /** In every run: the work of a query that streams is in the log, once per bound row, exactly if the stream
      was read or the server began by itself since, and otherwise not at all. */
  lemma StreamedWorkRunsExactlyWhenRead(states: seq<Session>, actions: seq<Action>, i: nat, n: nat, sid: nat)
    requires IsRun(states, actions) && i < n <= |actions| && actions[i] == Query(sid, Fine)
    requires var w := states[i].stmts[sid].w; Streamed(w) && Inner.Execution(w.inner).Some?
    ensures var call, w := |states[i].srv.execs|, states[i].stmts[sid].w;
            EffectsOf(states[n].srv.log, call) ==
            if Started(actions, i, n, call)
            then Repeat(Effect(call, Inner.Execution(w.inner).value), Inner.Times(w.inner)) else []
  {
    var call := |states[i].srv.execs|;
    QueryStreams(states[i], sid);
    hide Next, Streamed;
    RunRuns(states, actions, i, n, call);
    NothingRunsTwice(states, actions, n, call);
    hide IsRun, EffectsOf, Repeat, Started;
  }

  /** A keyword statement, or one with RETURNING: its work is done when the call returns. */
  predicate RunsAtOnce(w: Wrapper) {
    !Delegated(w) && !Unclassifiable(w.query) && (KeywordStatement(w.query) || Returns(w.query))
  }

  lemma QueryRunsAtOnce(s: Session, sid: nat)
    requires Enabled(s, Query(sid, Fine)) && RunsAtOnce(s.stmts[sid].w) && Inner.Execution(s.stmts[sid].w.inner).Some?
    ensures var t, w, call := Next(s, Query(sid, Fine)), s.stmts[sid].w, |s.srv.execs|;
            && |t.srv.execs| == call + 1 && t.stmts == s.stmts
            && t.srv.execs[call].status.Finished? && t.srv.execs[call].ok && !t.srv.execs[call].handed
            && t.srv.log == s.srv.log + Repeat(Effect(call, Inner.Execution(w.inner).value), Inner.Times(w.inner))
  {
    RouteExactly(s.stmts[sid].w);
    hide RouteOf, KeywordStatement, Returns, Unclassifiable;
  }

  /** An update is done when the call returns, whatever the statement. */
  lemma UpdateRunsAtOnce(s: Session, sid: nat)
    requires Enabled(s, Update(sid, Fine)) && Inner.Execution(s.stmts[sid].w.inner).Some?
    ensures var t, w, call := Next(s, Update(sid, Fine)), s.stmts[sid].w, |s.srv.execs|;
            && |t.srv.execs| == call + 1 && t.srv.execs[call].status.Finished? && t.srv.execs[call].ok
            && t.srv.log ==
               s.srv.log + Repeat(Effect(call, Inner.Execution(w.inner).value), Inner.Times(w.inner))
  {
  }

  /** And so is a statement of the geometry ingest, read to its end or not. */
  lemma HelperRunsAtOnce(s: Session, text: string, read: bool)
    ensures var t, call := Next(s, Helper(text, read, Fine)), |s.srv.execs|;
            && |t.srv.execs| == call + 1 && t.srv.execs[call].status.Finished? && t.srv.execs[call].ok
            && t.srv.log == s.srv.log + [Effect(call, Inner.SqlWork(text))]
  {
    var e := Effect(|s.srv.execs|, Inner.SqlWork(text));
    assert Repeat(e, 1) == Repeat(e, 0) + [e] == [e];
  }

  // ----- Results given up -----

  predicate SettledStream(srv: Server, call: nat) {
    call < |srv.execs| && (srv.execs[call].exhausted || srv.execs[call].cancelled)
  }

  lemma NextKeepsSettled(s: Session, a: Action, call: nat)
    requires Enabled(s, a) && SettledStream(s.srv, call)
    ensures SettledStream(Next(s, a).srv, call) && CancelSent(s, a) != Some(call)
  {
    hide Step, RouteOf, RoutedEagerly, Inner.Execution, OwnStatement;
  }

  /** Releasing a streaming result, or closing the statement whose result it is, cancels it exactly if its end
      was not seen and no cancel was sent for it before. */
  lemma GivingUpCancelsExactly(s: Session, a: Action, call: nat)
    requires Enabled(s, a) && call < |s.srv.execs|
    requires a == Drop(call) || (a.Close? && s.stmts[a.sid].current == Some(call))
    ensures CancelSent(s, a) == Some(call) <==> !SettledStream(s.srv, call)
    ensures SettledStream(Next(s, a).srv, call)
  {
  }

  lemma NextCurrentStays(s: Session, a: Action, sid: nat)
    requires Enabled(s, a) && sid < |s.stmts| && !(a.Query? && a.sid == sid)
    ensures sid < |Next(s, a).stmts| && Next(s, a).stmts[sid].current == s.stmts[sid].current
  {
    hide Step, RouteOf, RoutedEagerly, Inner.Execution, OwnStatement;
  }

  lemma {:induction false} CurrentStays(states: seq<Session>, actions: seq<Action>, i: nat, n: nat, sid: nat)
    requires IsRun(states, actions) && i < n <= |actions| && sid < |states[i + 1].stmts|
    requires forall k :: i < k < n ==> !(actions[k].Query? && actions[k].sid == sid)
    ensures sid < |states[n].stmts| && states[n].stmts[sid].current == states[i + 1].stmts[sid].current
  {
    hide Next, Enabled;
    if n == i + 1 {
    } else {
      CurrentStays(states, actions, i, n - 1, sid);
      NextCurrentStays(states[n - 1], actions[n - 1], sid);
    }
  }

  lemma {:induction false} SettledStays(states: seq<Session>, actions: seq<Action>, i: nat, n: nat, call: nat)
    requires IsRun(states, actions) && i <= n <= |actions| && SettledStream(states[i].srv, call)
    ensures SettledStream(states[n].srv, call)
    ensures forall k :: i <= k < n ==> Enabled(states[k], actions[k]) && CancelSent(states[k], actions[k]) != Some(call)
  {
    hide Next, Enabled, CancelSent;
    if n == i {
    } else {
      SettledStays(states, actions, i, n - 1, call);
      NextKeepsSettled(states[n - 1], actions[n - 1], call);
    }
  }

  /** In every run: a Close that follows a query that streams, with no other query on the statement in between,
      leaves the result exhausted or cancelled for good, and no further implicit cancel is sent for it. */
  lemma CloseSettlesTheLastResult(states: seq<Session>, actions: seq<Action>, i: nat, k: nat, n: nat, sid: nat)
    requires IsRun(states, actions) && i < k < n <= |actions|
    requires actions[i] == Query(sid, Fine) && actions[k] == Close(sid)
    requires var w := states[i].stmts[sid].w; Streamed(w) && Inner.Execution(w.inner).Some?
    requires forall m :: i < m < k ==> !(actions[m].Query? && actions[m].sid == sid)
    ensures SettledStream(states[n].srv, |states[i].srv.execs|)
    ensures forall m :: k < m < n ==>
              Enabled(states[m], actions[m]) && CancelSent(states[m], actions[m]) != Some(|states[i].srv.execs|)
  {
    var call := |states[i].srv.execs|;
    QueryStreams(states[i], sid);
    hide Streamed;
    CurrentStays(states, actions, i, k, sid);
    CurrentIsStreaming(states, actions, k);
    GivingUpCancelsExactly(states[k], actions[k], call);
    hide Next, Enabled, CancelSent;
    SettledStays(states, actions, k + 1, n, call);
  }
}
