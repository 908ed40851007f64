/**
What the wrapper's bookkeeping buys: a reused statement cannot be told from a fresh one, bound data
never poisons a SQL execution, and exactly when either fails.
*/
module StatementReuse {
  import opened Wrappers
  import Inner
  import opened StatementSpec

  // ----- A reused statement is a fresh statement -----

  /** A new statement with options `opts` applied and query `text` set. */
  function FreshWith(opts: seq<Setting>, text: string): Wrapper {
    NEW.(inner := Inner.SetSql(Inner.Replay(Inner.FRESH, opts), text), query := text, setOpts := opts)
  }

  /** The two agree on everything but the ingest options other than the target. */
  predicate Alike(a: Wrapper, b: Wrapper) {
    && Inner.View(a.inner) == Inner.View(b.inner)
    && a.inner.open == b.inner.open
    && a.(inner := b.inner, ingest := b.ingest) == b
    && a.ingest.target == b.ingest.target
  }

  lemma SetSqlQueryMakesFresh(w: Wrapper, text: string, f: Faults)
    requires Core(w) && Step(w, SetSqlQuery(text), f).ok
    ensures Alike(Step(w, SetSqlQuery(text), f).w, FreshWith(w.setOpts, text))
  {
    ReplaySetsOnlySettings(w.setOpts);
  }

  lemma SetIsAlike(a: Inner.State, b: Inner.State, key: string, value: OptionValue)
    requires Inner.View(a) == Inner.View(b)
    ensures Inner.View(Inner.Set(a, key, value)) == Inner.View(Inner.Set(b, key, value))
  {
  }

  lemma {:induction false} ReplayIsAlike(a: Inner.State, b: Inner.State, opts: seq<Setting>)
    requires Inner.View(a) == Inner.View(b) && a.open == b.open
    ensures Inner.View(Inner.Replay(a, opts)) == Inner.View(Inner.Replay(b, opts))
    ensures Inner.Replay(a, opts).open == a.open && Inner.Replay(b, opts).open == b.open
  {
    hide Inner.IsIngestKey;
    if opts == [] {
    } else {
      var n := |opts| - 1;
      ReplayIsAlike(a, b, opts[..n]);
      SetIsAlike(Inner.Replay(a, opts[..n]), Inner.Replay(b, opts[..n]), opts[n].key, opts[n].value);
    }
  }

  lemma ResetKeepsAlike(a: Wrapper, b: Wrapper, f: Faults)
    requires Alike(a, b)
    ensures Reset(a, f).ok == Reset(b, f).ok && Alike(Reset(a, f).w, Reset(b, f).w)
  {
    hide Inner.Replay;
  }

  lemma OptionKeepsAlike(a: Wrapper, b: Wrapper, op: Op, f: Faults)
    requires Alike(a, b) && (op.SetOption? || op.SetTyped?)
    ensures Step(a, op, f).ok == Step(b, op, f).ok && Alike(Step(a, op, f).w, Step(b, op, f).w)
  {
    hide Inner.IsIngestKey;
    var value := if op.SetOption? then Inner.Text(op.value) else op.typed;
    SetIsAlike(a.inner, b.inner, op.key, value);
    assert Inner.Set(a.inner, op.key, value).open == Inner.Set(b.inner, op.key, value).open;
    hide Inner.Set;
  }

  lemma StepKeepsAlike(a: Wrapper, b: Wrapper, op: Op, f: Faults)
    requires Alike(a, b)
    ensures Step(a, op, f).ok == Step(b, op, f).ok
    ensures Alike(Step(a, op, f).w, Step(b, op, f).w)
  {
    match op
    case SetOption(_, _) => OptionKeepsAlike(a, b, op, f); hide Step;
    case SetTyped(_, _) => OptionKeepsAlike(a, b, op, f); hide Step;
    case SetSqlQuery(_) => ResetKeepsAlike(a, b, f); hide Reset;
    case SetSubstraitPlan(_) => ResetKeepsAlike(a, b, f); hide Reset;
    case Prepare => hide Inner.Replay, Inner.IsIngestKey;
    case Bind(_) => hide Inner.Replay, Inner.IsIngestKey;
    case GeoRedirect(interim, done) =>
      var opts := RedirectOptions(interim);
      ReplayIsAlike(a.inner, b.inner, opts);
      if done < |opts| {
        ReplayIsAlike(a.inner, b.inner, opts[..done]);
      }
      hide Inner.Replay, RedirectOptions;
  }

  lemma {:induction false} RunKeepsAlike(a: Wrapper, b: Wrapper, calls: seq<Call>)
    requires Alike(a, b)
    ensures Alike(Run(a, calls), Run(b, calls))
    decreases |calls|
  {
    if calls == [] {
    } else {
      var c := calls[0];
      StepKeepsAlike(a, b, c.op, c.faults);
      RunKeepsAlike(Step(a, c.op, c.faults).w, Step(b, c.op, c.faults).w, calls[1..]);
    }
  }

  /** After any history, with any failures, a successful SetSqlQuery makes the statement one that no
      later sequence of calls can tell from a new statement with the recorded options and that query:
      every call has the same outcome and every execution makes the server do the same. */
  lemma ReusedStatementIsFresh(history: seq<Call>, text: string, f: Faults, later: seq<Call>)
    requires Step(Run(NEW, history), SetSqlQuery(text), f).ok
    ensures var w := Run(NEW, history);
            var reused := Run(Step(w, SetSqlQuery(text), f).w, later);
            var anew := Run(FreshWith(w.setOpts, text), later);
            && Alike(reused, anew)
            && Inner.Execution(reused.inner) == Inner.Execution(anew.inner)
            && Inner.Times(reused.inner) == Inner.Times(anew.inner)
            && forall op, g :: Step(reused, op, g).ok == Step(anew, op, g).ok
  {
    var w := Run(NEW, history);
    RunKeepsCore(NEW, history);
    SetSqlQueryMakesFresh(w, text, f);
    RunKeepsAlike(Step(w, SetSqlQuery(text), f).w, FreshWith(w.setOpts, text), later);
    var reused := Run(Step(w, SetSqlQuery(text), f).w, later);
    var anew := Run(FreshWith(w.setOpts, text), later);
    forall op, g ensures Step(reused, op, g).ok == Step(anew, op, g).ok {
      StepKeepsAlike(reused, anew, op, g);
    }
  }

  /** It is that new statement, ingest options and all, exactly when the inner statement was recreated or
      never had any, and the wrapper remembers none. */
  lemma ReusedStatementIsNewExactly(history: seq<Call>, text: string, f: Faults)
    requires Step(Run(NEW, history), SetSqlQuery(text), f).ok
    ensures var w := Run(NEW, history);
            Step(w, SetSqlQuery(text), f).w == FreshWith(w.setOpts, text) <==>
            (w.hasBound || w.inner.ingest == map[]) && w.ingest.(target := "") == NO_INGEST
  {
    RunKeepsCore(NEW, history);
    NewExactly(Run(NEW, history), text, f);
  }

  lemma NewExactly(w: Wrapper, text: string, f: Faults)
    requires Core(w) && Step(w, SetSqlQuery(text), f).ok
    ensures Step(w, SetSqlQuery(text), f).w == FreshWith(w.setOpts, text) <==>
            (w.hasBound || w.inner.ingest == map[]) && w.ingest.(target := "") == NO_INGEST
  {
    ReplaySetsOnlySettings(w.setOpts);
    hide Inner.Replay;
  }

  /** The wrapper's own copy of an ingest option says what the inner statement holds. */
  predicate MirrorsText(held: map<string, OptionValue>, key: string, noted: string) {
    if key in held then held[key] == Inner.Text(noted) else noted == ""
  }

  predicate MirrorsMode(w: Wrapper) {
    MirrorsText(w.inner.ingest, Inner.MODE, w.ingest.mode)
  }

  /** What `Alike` leaves out is not an accident: recreating the inner statement forgets the ingest
      mode while the wrapper remembers it, so after a successful SetSqlQuery the two agree only if
      nothing was recreated and they agreed before, or the wrapper had no mode to remember. */
  lemma ModeAgreesAfterSetSqlQueryExactly(w: Wrapper, text: string, f: Faults)
    requires Core(w) && Step(w, SetSqlQuery(text), f).ok
    ensures MirrorsMode(Step(w, SetSqlQuery(text), f).w) <==>
            if w.hasBound then w.ingest.mode == "" else MirrorsMode(w)
  {
    ReplaySetsOnlySettings(w.setOpts);
  }

  /** An ingest with any mode set, then a query on the same statement: the mode is remembered by the wrapper
      and forgotten by the inner statement. */
  lemma ModeIsForgottenOnReuse(mode: string, table: string, rows: Rows, text: string)
    requires mode != ""
    ensures var moded := Step(NEW, SetOption(Inner.MODE, mode), NO_FAULTS).w;
            var named := Step(moded, SetOption(Inner.TARGET_TABLE, table), NO_FAULTS).w;
            var bound := Step(named, Bind(rows), NO_FAULTS).w;
            var reused := Step(bound, SetSqlQuery(text), NO_FAULTS);
            reused.ok && MirrorsMode(bound) && !MirrorsMode(reused.w)
  {
    IngestKeys();
    hide Inner.IsIngestKey;
  }

  lemma IngestKeys()
    ensures Inner.IsIngestKey(Inner.MODE) && Inner.IsIngestKey(Inner.TARGET_TABLE)
    ensures Inner.MODE != Inner.TARGET_TABLE
  {
    TargetKeyIsIngestKey();
    assert |Inner.MODE| != |Inner.TARGET_TABLE|;
  }

  // ----- Staged data -----

  /** The statement holds the query the wrapper thinks it does, and nothing staged can poison it. */
  predicate Sync(w: Wrapper) {
    && (w.query != "" ==> w.inner.query == Inner.Sql(w.query))
    && (w.query != "" && w.ingest.target == "" ==> w.inner.staged.None?)
  }

  /** The calls that lose it: a new query that fails after the inner statement was swapped, and
      clearing the ingest target over rows staged for it. */
  predicate Breaks(w: Wrapper, op: Op, f: Faults) {
    w.query != "" &&
    match op
    case SetSqlQuery(_) => Swaps(w, f) && (f.closeOld || f.call)
    case SetSubstraitPlan(_) => Swaps(w, f) && (f.closeOld || f.call)
    case SetOption(key, value) => !f.call && key == Inner.TARGET_TABLE && value == "" && w.inner.staged.Some?
    case _ => false
  }

  lemma ResetAndSync(w: Wrapper, f: Faults)
    requires Core(w)
    ensures var r := Reset(w, f);
            && (!Swaps(w, f) ==> r.w == w)
            && (Swaps(w, f) ==> r.w.inner.query.NoQuery? && r.w.inner.staged.None? && r.w.query == w.query)
            && (r.ok ==> r.w.inner.staged.None?)
            && (r.ok <==> !w.hasBound || (Swaps(w, f) && !f.closeOld))
  {
    ReplaySetsOnlySettings(w.setOpts);
  }

  lemma RedirectAndSync(w: Wrapper, interim: string, done: nat, f: Faults)
    requires Sync(w)
    ensures Sync(Step(w, GeoRedirect(interim, done), f).w)
  {
    RedirectOptionsAreIngest(interim);
    var opts := RedirectOptions(interim);
    RedirectIsLocal(w.inner, opts);
    if done < |opts| {
      RedirectIsLocal(w.inner, opts[..done]);
    }
    hide RedirectOptions, Inner.Replay;
  }

  lemma StepKeepsSyncExactly(w: Wrapper, op: Op, f: Faults)
    requires Core(w) && Sync(w)
    ensures Sync(Step(w, op, f).w) <==> !Breaks(w, op, f)
  {
    hide Inner.Replay, Inner.IsIngestKey;
    match op
    case GeoRedirect(interim, done) => RedirectAndSync(w, interim, done, f); hide Step, Sync;
    case SetSqlQuery(_) => ResetAndSync(w, f); hide Reset, Core, Swaps;
    case SetSubstraitPlan(_) => ResetAndSync(w, f); hide Reset, Core, Swaps;
    case _ =>
  }

  /** It is never lost for good: a SetSqlQuery that succeeds restores it from any reachable state. */
  lemma SetSqlQueryRestoresSync(history: seq<Call>, text: string, f: Faults)
    requires Step(Run(NEW, history), SetSqlQuery(text), f).ok
    ensures Sync(Step(Run(NEW, history), SetSqlQuery(text), f).w)
  {
    RunKeepsCore(NEW, history);
    ReplaySetsOnlySettings(Run(NEW, history).setOpts);
  }

  predicate NeverBreaks(w: Wrapper, calls: seq<Call>)
    decreases |calls|
  {
    calls == [] ||
    (!Breaks(w, calls[0].op, calls[0].faults) &&
     NeverBreaks(Step(w, calls[0].op, calls[0].faults).w, calls[1..]))
  }

  lemma {:induction false} RunKeepsSync(w: Wrapper, calls: seq<Call>)
    requires Core(w) && Sync(w) && NeverBreaks(w, calls)
    ensures Core(Run(w, calls)) && Sync(Run(w, calls))
    decreases |calls|
  {
    if calls == [] {
    } else {
      var c := calls[0];
      StepKeepsCore(w, c.op, c.faults);
      StepKeepsSyncExactly(w, c.op, c.faults);
      RunKeepsSync(Step(w, c.op, c.faults).w, calls[1..]);
    }
  }

  /** In such a run a statement with a query and no ingest target always executes that query: it is
      never refused, and parameters were only ever bound to it prepared. */
  lemma SqlExecutionIsNeverPoisoned(calls: seq<Call>)
    requires NeverBreaks(NEW, calls)
    ensures var w := Run(NEW, calls);
            w.query != "" && w.ingest.target == "" ==>
            && Inner.Execution(w.inner) == Some(Inner.SqlWork(w.query))
            && (w.inner.params.Some? ==> w.inner.prepared)
  {
    RunKeepsSync(NEW, calls);
  }

  /** Without the wrapper's implicit Prepare the same calls would poison the statement: the inner
      object alone refuses the query once rows are bound to it unprepared. */
  lemma UnpreparedBindPoisonsInner(text: string, rows: Rows)
    ensures Inner.Execution(Inner.Bind(Inner.SetSql(Inner.FRESH, text), rows)).None?
    ensures text != "" ==>
              var w := Step(Step(NEW, SetSqlQuery(text), NO_FAULTS).w, Bind(rows), NO_FAULTS).w;
              Inner.Execution(w.inner) == Some(Inner.SqlWork(text)) && Inner.Times(w.inner) == rows.count
  {
  }

  // ----- Implicit prepares -----

  predicate KeepsQuery(calls: seq<Call>) {
    forall i :: 0 <= i < |calls| ==> !calls[i].op.SetSqlQuery? && !calls[i].op.SetSubstraitPlan?
  }

  /** How many Binds of the run prepared the statement themselves. */
  function ImplicitPrepares(w: Wrapper, calls: seq<Call>): nat
    decreases |calls|
  {
    if calls == [] then 0
    else
      var c := calls[0];
      (if c.op.Bind? && NeedsPrepare(w) && AutoPrepared(w, c.faults.prepare).ok then 1 else 0) +
      ImplicitPrepares(Step(w, c.op, c.faults).w, calls[1..])
  }

  lemma {:induction false} AtMostOneImplicitPrepare(w: Wrapper, calls: seq<Call>)
    requires KeepsQuery(calls)
    ensures ImplicitPrepares(w, calls) <= if w.prepared then 0 else 1
    decreases |calls|
  {
    if calls == [] {
    } else {
      var c := calls[0];
      var next := Step(w, c.op, c.faults).w;
      assert w.prepared ==> next.prepared;
      AtMostOneImplicitPrepare(next, calls[1..]);
    }
  }

  // ----- Recorded options -----

  /** The option a call leaves to be replayed, if it set one and that is not an ingest option. */
  function SuccessfulOption(w: Wrapper, op: Op, f: Faults): seq<Setting> {
    if !Step(w, op, f).ok then []
    else match op
      case SetOption(key, value) => if Inner.IsIngestKey(key) then [] else [Inner.Setting(key, Inner.Text(value))]
      case SetTyped(key, typed) => if Inner.IsIngestKey(key) then [] else [Inner.Setting(key, typed)]
      case _ => []
  }

  /** The options a caller set successfully, in order, except those of one ingest. */
  function SuccessfulOptions(w: Wrapper, calls: seq<Call>): seq<Setting>
    decreases |calls|
  {
    if calls == [] then []
    else
      var c := calls[0];
      SuccessfulOption(w, c.op, c.faults) + SuccessfulOptions(Step(w, c.op, c.faults).w, calls[1..])
  }

  lemma StepRecords(w: Wrapper, op: Op, f: Faults)
    ensures Step(w, op, f).w.setOpts == w.setOpts + SuccessfulOption(w, op, f)
  {
    hide Inner.IsIngestKey, Inner.Replay;
  }

  lemma {:induction false} RecordedOptions(w: Wrapper, calls: seq<Call>)
    ensures Run(w, calls).setOpts == w.setOpts + SuccessfulOptions(w, calls)
    decreases |calls|
  {
    if calls == [] {
    } else {
      var c := calls[0];
      StepRecords(w, c.op, c.faults);
      hide Step, SuccessfulOption;
      RecordedOptions(Step(w, c.op, c.faults).w, calls[1..]);
    }
  }

  /** The inner statement's settings are always those options applied in order to a new statement,
      however often it was recreated. */
  lemma SettingsAreReplayed(calls: seq<Call>)
    ensures Run(NEW, calls).inner.settings ==
            Inner.Replay(Inner.FRESH, SuccessfulOptions(NEW, calls)).settings
  {
    RunKeepsCore(NEW, calls);
    RecordedOptions(NEW, calls);
    assert [] + SuccessfulOptions(NEW, calls) == SuccessfulOptions(NEW, calls);
  }
}
