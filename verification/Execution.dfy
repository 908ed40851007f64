/**
Execution routing (`ExecuteQuery` of go/gizmosql/driver.go) against a lazy server: planning a query
runs nothing, a plan runs when its stream is read (or whenever the server likes), an update runs at
once. Runs are those of one client thread over any number of statements of one session.
*/
module Execution {
  import opened Wrappers
  import Inner
  import opened StatementSpec
  import SqlScanner

  // ----- Routing -----

  datatype Route = Crash | Put | Drained | Lazy

  /** `ExecuteQuery`: delegated, executed by update, drained into memory, or streamed. */
  function RouteOf(w: Wrapper): Route {
    if w.query == "" || w.ingest.target != "" then Lazy
    else match SqlScanner.IsDdlDml(w.query)
      case Panics => Crash
      case Is(true) => Put
      case Is(false) =>
        if SqlScanner.HasReturningClause(SqlScanner.StripSqlComments(w.query)) then Drained else Lazy
  }

  /** Such a call is to return only once the work is done. */
  predicate RoutedEagerly(w: Wrapper) {
    RouteOf(w).Put? || RouteOf(w).Drained?
  }

  /** The first field of the text, comments stripped, is one of the DDL/DML keywords. */
  predicate KeywordStatement(query: string) {
    var fields := SqlScanner.Fields(SqlScanner.StripSqlComments(query));
    fields != [] && SqlScanner.IsKeyword(SqlScanner.TrimRight(fields[0]))
  }

  /** The statement is SQL of that kind, with no ingest pending. */
  predicate WritesEagerly(w: Wrapper) {
    w.query != "" && w.ingest.target == "" && KeywordStatement(w.query)
  }

  /** Such a statement is never left to the reader: it is executed by update or drained, one of the
      two and not both. */
  lemma KeywordStatementsRunEagerly(w: Wrapper)
    requires WritesEagerly(w)
    ensures RouteOf(w) == if SqlScanner.HasReturningClause(SqlScanner.StripSqlComments(w.query))
                          then Drained else Put
  {
    assert SqlScanner.StripSqlComments(w.query) != "" by {
      assert SqlScanner.Fields("") == [];
    }
  }

  // ----- The server -----

  datatype Status = Planned | Running | Finished | Dead

  datatype Exec = Exec(
    work: Inner.Work,
    times: nat,
    writes: bool,       // issued through ExecuteQuery and routed eagerly
    eager: bool,        // the call was to return only once the work was done
    ok: bool,           // the call returned without an error
    handed: bool,       // the caller holds a streaming reader
    status: Status,
    exhausted: bool,
    cancelled: bool)

  datatype Effect = Effect(call: nat, work: Inner.Work)

  datatype Server = Server(execs: seq<Exec>, log: seq<Effect>)

  /** A call may be refused before the server does anything, or break with the server part way. */
  datatype Fault = Fine | Refused | Broken(status: Status)

  function Repeat(e: Effect, n: nat): seq<Effect> {
    if n == 0 then [] else Repeat(e, n - 1) + [e]
  }

  predicate Ran(s: Status) {
    s.Running? || s.Finished?
  }

  function Append(srv: Server, x: Exec): Server {
    Server(srv.execs + [x],
           srv.log + if Ran(x.status) then Repeat(Effect(|srv.execs|, x.work), x.times) else [])
  }

  const NOTHING := Inner.PlanWork([])

  /** One execute call, as the next entry of the server's table. */
  function Submit(srv: Server, w: Wrapper, route: Route, writes: bool, fault: Fault): Server {
    var work := Inner.Execution(w.inner);
    var failed := Exec(NOTHING, 0, writes, false, false, false, Dead, false, false);
    if route.Crash? || work.None? || fault.Refused? || (fault.Broken? && route.Lazy?) then Append(srv, failed)
    else
      var x := Exec(work.value, Inner.Times(w.inner), writes, !route.Lazy?, fault.Fine?, false, Planned, false, false);
      match fault
      case Broken(status) => Append(srv, x.(status := status))
      case _ => Append(srv, if route.Lazy? then x.(handed := true) else x.(status := Finished))
  }

  function SetExec(srv: Server, call: nat, x: Exec): Server
    requires call < |srv.execs|
  {
    srv.(execs := srv.execs[call := x])
  }

  /** A planned stream starts: now its effects happen. */
  function Start(srv: Server, call: nat): Server
    requires call < |srv.execs|
  {
    var x := srv.execs[call];
    if x.status.Planned? then
      Server(srv.execs[call := x.(status := Running)], srv.log + Repeat(Effect(call, x.work), x.times))
    else srv
  }

  // ----- The client's run -----

  /** `bound`: the rows of the last successful Bind since the query was set or prepared anew. */
  datatype Statement = Statement(w: Wrapper, bound: Option<Rows>, current: Option<nat>)

  datatype Session = Session(stmts: seq<Statement>, srv: Server)

  datatype Action =
    | Configure(sid: nat, op: Op, faults: Faults)
    | Query(sid: nat, fault: Fault)
    | Update(sid: nat, fault: Fault)
    | Helper(text: string, read: bool, fault: Fault)   // a statement of the geometry ingest on one of its own
    | Pull(call: nat, more: bool)
    | Drop(call: nat)
    | Close(sid: nat)
    | Starts(call: nat)
    | Finishes(call: nat)

  function Rebound(bound: Option<Rows>, op: Op, ok: bool): Option<Rows> {
    if !ok then bound
    else match op
      case Bind(rows) => Some(rows)
      case SetSqlQuery(_) => None
      case SetSubstraitPlan(_) => None
      case Prepare => None
      case _ => bound
  }

  predicate Enabled(s: Session, a: Action) {
    match a
    case Configure(sid, _, _) => sid < |s.stmts|
    case Query(sid, _) => sid < |s.stmts|
    case Update(sid, _) => sid < |s.stmts|
    case Helper(_, _, _) => true
    case Close(sid) => sid < |s.stmts|
    case Pull(call, _) => call < |s.srv.execs| && s.srv.execs[call].handed
    case Drop(call) => call < |s.srv.execs| && s.srv.execs[call].handed
    case Starts(call) => call < |s.srv.execs| && s.srv.execs[call].handed
    case Finishes(call) => call < |s.srv.execs| && s.srv.execs[call].status.Running?
  }

  /** The execution whose abandonment makes this action send an implicit cancel. */
  function CancelSent(s: Session, a: Action): Option<nat>
    requires Enabled(s, a)
  {
    var c := match a
      case Drop(call) => Some(call)
      case Close(sid) => s.stmts[sid].current
      case _ => None;
    if c.Some? && c.value < |s.srv.execs| && !s.srv.execs[c.value].exhausted && !s.srv.execs[c.value].cancelled
    then c else None
  }

  /** A new inner statement that was given a query and nothing else. */
  function OwnStatement(text: string): Wrapper {
    NEW.(inner := Inner.SetSql(Inner.FRESH, text), query := text)
  }

  function Next(s: Session, a: Action): Session
    requires Enabled(s, a)
  {
    match a
    case Configure(sid, op, f) =>
      var st := s.stmts[sid];
      var o := Step(st.w, op, f);
      s.(stmts := s.stmts[sid := st.(w := o.w, bound := Rebound(st.bound, op, o.ok))])
    case Query(sid, fault) =>
      var st := s.stmts[sid];
      var srv := Submit(s.srv, st.w, RouteOf(st.w), RoutedEagerly(st.w), fault);
      var call := |s.srv.execs|;
      Session(if srv.execs[call].handed then s.stmts[sid := st.(current := Some(call))] else s.stmts, srv)
    case Update(sid, fault) => s.(srv := Submit(s.srv, s.stmts[sid].w, Put, false, fault))
    case Helper(text, read, fault) =>
      s.(srv := Submit(s.srv, OwnStatement(text), if read then Drained else Put, false, fault))
    case Pull(call, more) =>
      var srv := Start(s.srv, call);
      s.(srv := if more then srv
                else SetExec(srv, call, srv.execs[call].(status := Finished, exhausted := true)))
    case Drop(call) => MarkCancelled(s, CancelSent(s, a))
    case Close(sid) => MarkCancelled(s, CancelSent(s, a))
    case Starts(call) => s.(srv := Start(s.srv, call))
    case Finishes(call) => s.(srv := SetExec(s.srv, call, s.srv.execs[call].(status := Finished)))
  }

  function MarkCancelled(s: Session, c: Option<nat>): Session {
    if c.Some? && c.value < |s.srv.execs|
    then s.(srv := SetExec(s.srv, c.value, s.srv.execs[c.value].(cancelled := true)))
    else s
  }

  /** A run: its actions and the states it goes through. */
  predicate IsRun(states: seq<Session>, actions: seq<Action>) {
    && |states| == |actions| + 1
    && states[0].srv == Server([], [])
    && (forall i :: 0 <= i < |states[0].stmts| ==> states[0].stmts[i] == Statement(NEW, None, None))
    && forall i :: 0 <= i < |actions| ==> Enabled(states[i], actions[i]) && states[i + 1] == Next(states[i], actions[i])
  }

  // ----- What every action keeps -----

  predicate BoundInv(st: Statement) {
    && Core(st.w)
    && BoundAgrees(st.w, st.bound)
  }

  /** All that the options of a geo ingest change is the target and the ingest options. */
  lemma RedirectKeepsBound(st: Statement, interim: string, done: nat)
    ensures var w' := Step(st.w, GeoRedirect(interim, done), NO_FAULTS).w;
            && w'.inner.params == st.w.inner.params && w'.inner.staged == st.w.inner.staged
            && w'.inner.query == st.w.inner.query && w'.query == st.w.query
  {
    RedirectOptionsAreIngest(interim);
    var opts := RedirectOptions(interim);
    RedirectIsLocal(st.w.inner, opts);
    if done < |opts| {
      RedirectIsLocal(st.w.inner, opts[..done]);
    }
  }

  predicate BoundAgrees(w: Wrapper, bound: Option<Rows>) {
    w.query != "" && w.inner.query == Inner.Sql(w.query) && w.inner.staged.None? ==> w.inner.params == bound
  }

  lemma ConfigureAgrees(st: Statement, op: Op, f: Faults)
    requires BoundInv(st)
    ensures var o := Step(st.w, op, f); BoundAgrees(o.w, Rebound(st.bound, op, o.ok))
  {
    ReplaySetsOnlySettings(st.w.setOpts);
    var w := st.w;
    assert (w.inner.params.Some? ==> w.prepared) && w.prepared == w.inner.prepared;
    assert BoundAgrees(w, st.bound);
    hide Inner.Replay, Inner.IsIngestKey, Core;
    match op
    case GeoRedirect(interim, done) => RedirectKeepsBound(st, interim, done);
    case _ =>
  }

  lemma ConfigureKeepsBound(st: Statement, op: Op, f: Faults)
    requires BoundInv(st)
    ensures var o := Step(st.w, op, f); BoundInv(st.(w := o.w, bound := Rebound(st.bound, op, o.ok)))
  {
    StepKeepsCore(st.w, op, f);
    ConfigureAgrees(st, op, f);
    hide Step, Core;
  }

  /** What the call that made the entry promised. */
  predicate EntryInv(x: Exec) {
    && (x.handed ==> !x.eager && !x.status.Dead?)
    && (x.eager && x.ok ==> x.status.Finished?)
    && (x.writes && x.ok ==> x.eager)
  }

  function EffectsOf(log: seq<Effect>, call: nat): seq<Effect> {
    if log == [] then []
    else
      var last := log[|log| - 1];
      EffectsOf(log[..|log| - 1], call) + if last.call == call then [last] else []
  }

  predicate Inv(s: Session) {
    && (forall i :: 0 <= i < |s.stmts| ==> BoundInv(s.stmts[i]))
    && (forall c :: 0 <= c < |s.srv.execs| ==> EntryInv(s.srv.execs[c]))
    && (forall i :: 0 <= i < |s.srv.log| ==> s.srv.log[i].call < |s.srv.execs|)
    && (forall c :: 0 <= c < |s.srv.execs| ==> LoggedOnce(s.srv, c))
  }

  /** The work of a call is in the log once, row by row, if it ever ran, and not at all otherwise. */
  predicate LoggedOnce(srv: Server, c: nat)
    requires c < |srv.execs|
  {
    var x := srv.execs[c];
    EffectsOf(srv.log, c) == if Ran(x.status) then Repeat(Effect(c, x.work), x.times) else []
  }

  lemma {:induction false} EffectsConcat(a: seq<Effect>, b: seq<Effect>, call: nat)
    ensures EffectsOf(a + b, call) == EffectsOf(a, call) + EffectsOf(b, call)
  {
    if b == [] {
      assert a + b == a;
    } else {
      EffectsConcat(a, b[..|b| - 1], call);
      assert (a + b)[..|a + b| - 1] == a + b[..|b| - 1];
    }
  }

  lemma {:induction false} RepeatIsUniform(e: Effect, n: nat)
    ensures |Repeat(e, n)| == n && forall i :: 0 <= i < n ==> Repeat(e, n)[i] == e
  {
    if n == 0 {
    } else {
      RepeatIsUniform(e, n - 1);
    }
  }

  lemma RepeatLast(e: Effect, n: nat)
    requires n > 0
    ensures var r := Repeat(e, n); |r| == n && r[..n - 1] == Repeat(e, n - 1) && r[n - 1] == e
    ensures Repeat(e, n) == Repeat(e, n - 1) + [e]
  {
    RepeatIsUniform(e, n - 1);
  }

  lemma {:induction false} EffectsOfRepeat(e: Effect, n: nat, call: nat)
    ensures EffectsOf(Repeat(e, n), call) == if e.call == call then Repeat(e, n) else []
  {
    if n == 0 {
    } else {
      EffectsOfRepeat(e, n - 1, call);
      RepeatLast(e, n);
      hide Repeat;
    }
  }

  lemma {:induction false} NoEffects(log: seq<Effect>, call: nat)
    requires forall i :: 0 <= i < |log| ==> log[i].call != call
    ensures EffectsOf(log, call) == []
  {
    if log == [] {
    } else {
      NoEffects(log[..|log| - 1], call);
    }
  }

  predicate ServerInv(srv: Server) {
    && (forall c :: 0 <= c < |srv.execs| ==> EntryInv(srv.execs[c]))
    && (forall i :: 0 <= i < |srv.log| ==> srv.log[i].call < |srv.execs|)
    && (forall c :: 0 <= c < |srv.execs| ==> LoggedOnce(srv, c))
  }

  lemma LogExtends(log: seq<Effect>, e: Effect, n: nat, c: nat)
    ensures EffectsOf(log + Repeat(e, n), c) ==
            EffectsOf(log, c) + if e.call == c then Repeat(e, n) else []
    ensures forall i :: 0 <= i < |log + Repeat(e, n)| ==>
              (log + Repeat(e, n))[i] == if i < |log| then log[i] else e
  {
    EffectsConcat(log, Repeat(e, n), c);
    EffectsOfRepeat(e, n, c);
    RepeatIsUniform(e, n);
  }

  lemma AppendLogs(srv: Server, x: Exec, c: nat)
    requires ServerInv(srv) && c <= |srv.execs|
    ensures LoggedOnce(Append(srv, x), c)
  {
    var e := Effect(|srv.execs|, x.work);
    var n := if Ran(x.status) then x.times else 0;
    LogExtends(srv.log, e, n, c);
    assert Append(srv, x).log == srv.log + Repeat(e, n);
    hide EffectsOf, Repeat;
    if c == |srv.execs| {
      NoEffects(srv.log, c);
    } else {
      assert LoggedOnce(srv, c);
    }
  }

  lemma AppendKeeps(srv: Server, x: Exec)
    requires ServerInv(srv) && EntryInv(x)
    ensures ServerInv(Append(srv, x))
  {
    var next := Append(srv, x);
    var e := Effect(|srv.execs|, x.work);
    if Ran(x.status) {
      RepeatIsUniform(e, x.times);
    }
    forall c | 0 <= c < |next.execs| ensures LoggedOnce(next, c) {
      AppendLogs(srv, x, c);
    }
    hide LoggedOnce, Repeat;
  }

  lemma StartKeeps(srv: Server, call: nat)
    requires ServerInv(srv) && call < |srv.execs| && srv.execs[call].handed
    ensures ServerInv(Start(srv, call))
    ensures !Start(srv, call).execs[call].status.Planned?
  {
    var x := srv.execs[call];
    if x.status.Planned? {
      var next := Start(srv, call);
      LogExtends(srv.log, Effect(call, x.work), x.times, call);
      forall c | 0 <= c < |next.execs| ensures LoggedOnce(next, c) {
        LogExtends(srv.log, Effect(call, x.work), x.times, c);
        assert LoggedOnce(srv, c);
      }
    }
  }

  lemma MarkKeeps(srv: Server, call: nat, x: Exec)
    requires ServerInv(srv) && call < |srv.execs|
    requires var y := srv.execs[call];
             EntryInv(x) && x.work == y.work && x.times == y.times && Ran(x.status) == Ran(y.status)
    ensures ServerInv(SetExec(srv, call, x))
  {
    var next := SetExec(srv, call, x);
    forall c | 0 <= c < |next.execs| ensures LoggedOnce(next, c) {
      assert LoggedOnce(srv, c);
    }
  }

  /** The entries made by earlier calls keep what they were made for. */
  predicate Grows(a: Server, b: Server) {
    && |a.execs| <= |b.execs|
    && forall c :: 0 <= c < |a.execs| ==> b.execs[c].writes == a.execs[c].writes && b.execs[c].ok == a.execs[c].ok
  }

  lemma SubmitKeeps(srv: Server, w: Wrapper, route: Route, writes: bool, fault: Fault)
    requires ServerInv(srv) && (writes ==> !route.Lazy?)
    ensures ServerInv(Submit(srv, w, route, writes, fault)) && Grows(srv, Submit(srv, w, route, writes, fault))
  {
    var next := Submit(srv, w, route, writes, fault);
    var x := next.execs[|srv.execs|];
    assert next == Append(srv, x);
    AppendKeeps(srv, x);
  }

  lemma PullKeeps(srv: Server, call: nat, more: bool)
    requires ServerInv(srv) && call < |srv.execs| && srv.execs[call].handed
    ensures var next := Start(srv, call);
            var done := if more then next
                        else SetExec(next, call, next.execs[call].(status := Finished, exhausted := true));
            ServerInv(next) && Grows(srv, next) && ServerInv(done) && Grows(srv, done)
  {
    hide LoggedOnce;
    StartKeeps(srv, call);
    var next := Start(srv, call);
    assert EntryInv(srv.execs[call]) && EntryInv(next.execs[call]);
    MarkKeeps(next, call, next.execs[call].(status := Finished, exhausted := true));
  }

  lemma StatementsKeepBound(s: Session, a: Action)
    requires Enabled(s, a) && forall i :: 0 <= i < |s.stmts| ==> BoundInv(s.stmts[i])
    ensures forall i :: 0 <= i < |Next(s, a).stmts| ==> BoundInv(Next(s, a).stmts[i])
  {
    match a
    case Configure(sid, op, f) =>
      ConfigureKeepsBound(s.stmts[sid], op, f);
      hide BoundInv;
    case Query(sid, fault) =>
      assert BoundInv(s.stmts[sid].(current := Some(|s.srv.execs|)));
      hide BoundInv, Submit;
    case _ =>
      hide BoundInv;
  }

  lemma QueryKeeps(srv: Server, w: Wrapper, fault: Fault)
    requires ServerInv(srv)
    ensures var next := Submit(srv, w, RouteOf(w), RoutedEagerly(w), fault); ServerInv(next) && Grows(srv, next)
  {
    hide RouteOf;
    SubmitKeeps(srv, w, RouteOf(w), RoutedEagerly(w), fault);
  }

  lemma ServerKeeps(s: Session, a: Action)
    requires ServerInv(s.srv) && Enabled(s, a)
    ensures ServerInv(Next(s, a).srv) && Grows(s.srv, Next(s, a).srv)
  {
    hide LoggedOnce, BoundInv, Step, Submit, RouteOf, RoutedEagerly;
    var srv := s.srv;
    match a
    case Configure(_, _, _) =>
    case Query(sid, fault) => QueryKeeps(srv, s.stmts[sid].w, fault);
    case Update(sid, fault) => SubmitKeeps(srv, s.stmts[sid].w, Put, false, fault);
    case Helper(text, read, fault) =>
      SubmitKeeps(srv, OwnStatement(text), if read then Drained else Put, false, fault);
    case Pull(call, more) => PullKeeps(srv, call, more);
    case Starts(call) => PullKeeps(srv, call, true);
    case Finishes(call) => MarkKeeps(srv, call, srv.execs[call].(status := Finished));
    case _ =>
      var c := CancelSent(s, a);
      if c.Some? {
        MarkKeeps(srv, c.value, srv.execs[c.value].(cancelled := true));
      }
  }

  lemma NextKeepsInv(s: Session, a: Action)
    requires Inv(s) && Enabled(s, a)
    ensures Inv(Next(s, a)) && Grows(s.srv, Next(s, a).srv)
  {
    hide Next, LoggedOnce, BoundInv, EntryInv, Grows;
    StatementsKeepBound(s, a);
    ServerKeeps(s, a);
  }

  lemma {:induction false} RunKeepsInv(states: seq<Session>, actions: seq<Action>, n: nat)
    requires IsRun(states, actions) && n <= |actions|
    ensures Inv(states[n])
  {
    if n == 0 {
    } else {
      RunKeepsInv(states, actions, n - 1);
      NextKeepsInv(states[n - 1], actions[n - 1]);
    }
  }

  // ----- Eager effects over whole runs -----

  /** What one action promises the log: the statement's text, once per bound row, if the action is a
      successful ExecuteQuery that is routed eagerly. */
  function Promised(s: Session, a: Action): seq<Effect>
    requires Enabled(s, a)
  {
    if a.Query? && RoutedEagerly(s.stmts[a.sid].w) && Next(s, a).srv.execs[|s.srv.execs|].ok then
      var st := s.stmts[a.sid];
      Repeat(Effect(|s.srv.execs|, Inner.SqlWork(st.w.query)), if st.bound.Some? then st.bound.value.count else 1)
    else []
  }

  function AllPromised(states: seq<Session>, actions: seq<Action>, n: nat): seq<Effect>
    requires IsRun(states, actions) && n <= |actions|
  {
    if n == 0 then [] else AllPromised(states, actions, n - 1) + Promised(states[n - 1], actions[n - 1])
  }

  /** The part of the log that belongs to successful calls of that kind. */
  function Writes(log: seq<Effect>, execs: seq<Exec>): seq<Effect> {
    if log == [] then []
    else
      var last := log[|log| - 1];
      Writes(log[..|log| - 1], execs) +
      if last.call < |execs| && execs[last.call].writes && execs[last.call].ok then [last] else []
  }

  lemma {:induction false} WritesConcat(a: seq<Effect>, b: seq<Effect>, execs: seq<Exec>)
    ensures Writes(a + b, execs) == Writes(a, execs) + Writes(b, execs)
  {
    if b == [] {
      assert a + b == a;
    } else {
      WritesConcat(a, b[..|b| - 1], execs);
      assert (a + b)[..|a + b| - 1] == a + b[..|b| - 1];
    }
  }

  lemma {:induction false} WritesOfRepeat(e: Effect, n: nat, execs: seq<Exec>)
    requires e.call < |execs|
    ensures Writes(Repeat(e, n), execs) == if execs[e.call].writes && execs[e.call].ok then Repeat(e, n) else []
  {
    if n == 0 {
    } else {
      WritesOfRepeat(e, n - 1, execs);
      RepeatLast(e, n);
      hide Repeat;
    }
  }

  lemma {:induction false} WritesStable(log: seq<Effect>, a: Server, b: Server)
    requires Grows(a, b) && forall i :: 0 <= i < |log| ==> log[i].call < |a.execs|
    ensures Writes(log, b.execs) == Writes(log, a.execs)
  {
    if log == [] {
    } else {
      WritesStable(log[..|log| - 1], a, b);
    }
  }

  /** A step that logs `n` copies of an effect adds them to the writes if the call is one. */
  lemma WritesGrow(a: Server, b: Server, e: Effect, n: nat)
    requires Grows(a, b) && forall i :: 0 <= i < |a.log| ==> a.log[i].call < |a.execs|
    requires e.call < |b.execs| && b.log == a.log + Repeat(e, n)
    ensures Writes(b.log, b.execs) == Writes(a.log, a.execs) +
            if b.execs[e.call].writes && b.execs[e.call].ok then Repeat(e, n) else []
  {
    WritesStable(a.log, a, b);
    WritesConcat(a.log, Repeat(e, n), b.execs);
    WritesOfRepeat(e, n, b.execs);
  }

  /** A successful eager call does the work the caller asked for, as often as rows are bound. */
  lemma EagerWorkIsAsked(st: Statement)
    requires BoundInv(st) && RoutedEagerly(st.w) && Inner.Execution(st.w.inner).Some?
    ensures Inner.Execution(st.w.inner) == Some(Inner.SqlWork(st.w.query))
    ensures Inner.Times(st.w.inner) == if st.bound.Some? then st.bound.value.count else 1
  {
  }

  lemma SubmitLogs(srv: Server, w: Wrapper, route: Route, writes: bool, fault: Fault)
    ensures var next := Submit(srv, w, route, writes, fault);
            var x := next.execs[|srv.execs|];
            next.log == srv.log + Repeat(Effect(|srv.execs|, x.work), if Ran(x.status) then x.times else 0)
  {
  }

  lemma QueryWrites(s: Session, sid: nat, fault: Fault)
    requires Inv(s) && Enabled(s, Query(sid, fault))
    ensures var t := Next(s, Query(sid, fault));
            Writes(t.srv.log, t.srv.execs) == Writes(s.srv.log, s.srv.execs) + Promised(s, Query(sid, fault))
  {
    hide LoggedOnce, RouteOf, RoutedEagerly;
    var st := s.stmts[sid];
    var writes := RoutedEagerly(st.w);
    QueryKeeps(s.srv, st.w, fault);
    SubmitLogs(s.srv, st.w, RouteOf(st.w), writes, fault);
    var next := Submit(s.srv, st.w, RouteOf(st.w), writes, fault);
    var x := next.execs[|s.srv.execs|];
    WritesGrow(s.srv, next, Effect(|s.srv.execs|, x.work), if Ran(x.status) then x.times else 0);
    if writes && x.ok {
      assert EntryInv(x);
      EagerWorkIsAsked(st);
    }
    hide BoundInv, Writes, Repeat;
  }

  lemma OtherCallsWriteNothing(srv: Server, w: Wrapper, route: Route, fault: Fault)
    requires ServerInv(srv)
    ensures var next := Submit(srv, w, route, false, fault);
            Writes(next.log, next.execs) == Writes(srv.log, srv.execs)
  {
    hide LoggedOnce;
    SubmitKeeps(srv, w, route, false, fault);
    SubmitLogs(srv, w, route, false, fault);
    var next := Submit(srv, w, route, false, fault);
    var x := next.execs[|srv.execs|];
    WritesGrow(srv, next, Effect(|srv.execs|, x.work), if Ran(x.status) then x.times else 0);
  }

  lemma StepWrites(s: Session, a: Action)
    requires Inv(s) && Enabled(s, a)
    ensures var t := Next(s, a);
            Writes(t.srv.log, t.srv.execs) == Writes(s.srv.log, s.srv.execs) + Promised(s, a)
  {
    match a
    case Query(sid, fault) => QueryWrites(s, sid, fault);
    case Update(sid, fault) =>
      OtherCallsWriteNothing(s.srv, s.stmts[sid].w, Put, fault);
      hide Submit, Writes, LoggedOnce, EntryInv, BoundInv;
    case Helper(text, read, fault) =>
      OtherCallsWriteNothing(s.srv, OwnStatement(text), if read then Drained else Put, fault);
      hide Submit, Writes, LoggedOnce, EntryInv, BoundInv, OwnStatement;
    case Pull(call, _) =>
      NextKeepsInv(s, a);
      PulledNeverWrites(s, Next(s, a), call);
      hide LoggedOnce, Writes, EntryInv;
    case Starts(call) =>
      NextKeepsInv(s, a);
      PulledNeverWrites(s, Next(s, a), call);
      hide LoggedOnce, Writes, EntryInv;
    case _ =>
      NextKeepsInv(s, a);
      hide LoggedOnce, EntryInv, Step;
      WritesStable(s.srv.log, s.srv, Next(s, a).srv);
  }

  lemma PulledNeverWrites(s: Session, t: Session, call: nat)
    requires Inv(s) && Grows(s.srv, t.srv) && call < |s.srv.execs| && s.srv.execs[call].handed
    requires t.srv.log == Start(s.srv, call).log
    ensures Writes(t.srv.log, t.srv.execs) == Writes(s.srv.log, s.srv.execs)
  {
    var x := s.srv.execs[call];
    assert EntryInv(x);
    WritesGrow(s.srv, t.srv, Effect(call, x.work), if x.status.Planned? then x.times else 0);
  }

  /** In every run of one client thread, with any failures, the server's log holds the work of the
      successful eagerly routed ExecuteQuery calls exactly: each once (once per bound row), in call order,
      whatever became of the readers. Module ExecutionOnTokens says which statements these are. */
  lemma {:induction false} EagerEffectsExactlyOnce(states: seq<Session>, actions: seq<Action>, n: nat)
    requires IsRun(states, actions) && n <= |actions|
    ensures Writes(states[n].srv.log, states[n].srv.execs) == AllPromised(states, actions, n)
  {
    if n == 0 {
    } else {
      EagerEffectsExactlyOnce(states, actions, n - 1);
      RunKeepsInv(states, actions, n - 1);
      StepWrites(states[n - 1], actions[n - 1]);
    }
  }

  /** And nothing else runs twice: a stream's work is in the log once if the stream ever started, and
      not at all if nobody read it. */
  lemma NothingRunsTwice(states: seq<Session>, actions: seq<Action>, n: nat, call: nat)
    requires IsRun(states, actions) && n <= |actions| && call < |states[n].srv.execs|
    ensures LoggedOnce(states[n].srv, call)
  {
    RunKeepsInv(states, actions, n);
  }

  /** Whenever an implicit cancel goes out, from a closed statement or a released reader, what it can
      interrupt is no eagerly executed statement whose call has returned successfully, the statements of a
      geometry ingest included, and the stream it is meant for is none. Only a call that already reported
      an error can be cut short. */
  lemma NoSelfInterruptedWrites(states: seq<Session>, actions: seq<Action>, n: nat, call: nat)
    requires IsRun(states, actions) && n < |actions| && call < |states[n].srv.execs|
    requires CancelSent(states[n], actions[n]).Some?
    ensures var x := states[n].srv.execs[call];
            x.eager && x.status.Running? ==> !x.ok
    ensures !states[n].srv.execs[CancelSent(states[n], actions[n]).value].eager
  {
    RunKeepsInv(states, actions, n);
    CurrentIsStreaming(states, actions, n);
  }

  predicate Streams(s: Session, c: nat) {
    c < |s.srv.execs| && s.srv.execs[c].handed && !s.srv.execs[c].eager
  }

  /** The execution a statement would cancel on Close is one that streams to the caller. */
  lemma {:induction false} CurrentIsStreaming(states: seq<Session>, actions: seq<Action>, n: nat)
    requires IsRun(states, actions) && n <= |actions|
    ensures forall i :: 0 <= i < |states[n].stmts| && states[n].stmts[i].current.Some? ==>
              Streams(states[n], states[n].stmts[i].current.value)
  {
    if n == 0 {
    } else {
      CurrentIsStreaming(states, actions, n - 1);
      var s, a := states[n - 1], actions[n - 1];
      NextKeepsStreams(s, a);
      NextCurrent(s, a);
    }
  }

  lemma NextCurrent(s: Session, a: Action)
    requires Enabled(s, a)
    ensures var t := Next(s, a);
            |t.stmts| == |s.stmts| &&
            forall i :: 0 <= i < |t.stmts| && t.stmts[i].current.Some? ==>
              t.stmts[i].current == s.stmts[i].current || Streams(t, t.stmts[i].current.value)
  {
    hide Step, RouteOf, RoutedEagerly;
  }

  lemma NextKeepsStreams(s: Session, a: Action)
    requires Enabled(s, a)
    ensures forall c :: Streams(s, c) ==> Streams(Next(s, a), c)
  {
    hide Step, RouteOf, RoutedEagerly;
  }
}
