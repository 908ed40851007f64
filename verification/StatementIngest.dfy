/**
What a caller can count on when setting options and binding rows: which options are remembered, when an
ingest takes the geometry path, what is executed, and that settings survive every reuse.
*/
module StatementIngest {
  import opened Wrappers
  import Inner
  import opened StatementSpec

  // ----- Options that are remembered -----

  /** The value of the last successful SetOption of a key. */
  function LastSet(w: Wrapper, calls: seq<Call>, key: string): Option<string>
    decreases |calls|
  {
    if |calls| == 0 then None
    else
      var o := Step(w, calls[0].op, calls[0].faults);
      var later := LastSet(o.w, calls[1..], key);
      if later.Some? then later
      else if o.ok && calls[0].op.SetOption? && calls[0].op.key == key then Some(calls[0].op.value)
      else None
  }

  function Or(last: Option<string>, otherwise: string): string {
    match last
    case Some(v) => v
    case None => otherwise
  }

  lemma IngestKeysDiffer()
    ensures Inner.TARGET_TABLE == "adbc.ingest.target_table" && Inner.MODE == "adbc.ingest.mode"
    ensures Inner.CATALOG == "adbc.ingest.target_catalog" && Inner.DB_SCHEMA == "adbc.ingest.target_db_schema"
    ensures Inner.TEMPORARY == "adbc.ingest.temporary"
    ensures |Inner.MODE| < |Inner.TEMPORARY| < |Inner.TARGET_TABLE| < |Inner.CATALOG| < |Inner.DB_SCHEMA|
  {
  }

  /** One call: each option has a place of its own, and no other call touches mode, catalog, schema or the
      temporary flag. */
  lemma StepNotes(w: Wrapper, op: Op, f: Faults)
    ensures var o := Step(w, op, f); var g, h := w.ingest, o.w.ingest;
            var sets := (key: string) => o.ok && op.SetOption? && op.key == key;
            && h.mode == (if sets("adbc.ingest.mode") then op.value else g.mode)
            && h.catalog == (if sets("adbc.ingest.target_catalog") then op.value else g.catalog)
            && h.dbSchema == (if sets("adbc.ingest.target_db_schema") then op.value else g.dbSchema)
            && h.temp == (if sets("adbc.ingest.temporary") then op.value == "true" else g.temp)
            && h.target == (if sets("adbc.ingest.target_table") then op.value
                            else if o.ok && op.SetSqlQuery? then "" else g.target)
  {
    IngestKeysDiffer();
    hide Inner.Replay, Inner.IsIngestKey, TakesGeoPath;
  }

  /** After any run with any failures, an ingest goes by the last mode, catalog, schema and temporary flag that
      were set successfully. */
  lemma {:induction false} LastOptionCounts(w: Wrapper, calls: seq<Call>)
    ensures var g, h := w.ingest, Run(w, calls).ingest;
            && h.mode == Or(LastSet(w, calls, "adbc.ingest.mode"), g.mode)
            && h.catalog == Or(LastSet(w, calls, "adbc.ingest.target_catalog"), g.catalog)
            && h.dbSchema == Or(LastSet(w, calls, "adbc.ingest.target_db_schema"), g.dbSchema)
            && h.temp == match LastSet(w, calls, "adbc.ingest.temporary")
                         case Some(v) => v == "true"
                         case None => g.temp
    decreases |calls|
  {
    if |calls| == 0 {
    } else {
      var o := Step(w, calls[0].op, calls[0].faults);
      StepNotes(w, calls[0].op, calls[0].faults);
      LastOptionCounts(o.w, calls[1..]);
      hide Step;
    }
  }

  // ----- The geometry path -----

  /** Some bound field carries the name of a geoarrow extension. */
  predicate HasGeo(rows: Rows) {
    exists i :: 0 <= i < |rows.schema| && CarriesGeo(rows.schema[i])
  }

  predicate CarriesGeo(f: Inner.Field) {
    f.extension.Some? && |f.extension.value| >= 9 && f.extension.value[..9] == "geoarrow."
  }

  lemma {:induction false} SomeGeoName(fields: Inner.Schema)
    ensures GeoNames(fields) != [] <==> exists i :: 0 <= i < |fields| && CarriesGeo(fields[i])
  {
    if fields == [] {
    } else {
      SomeGeoName(fields[1..]);
      assert IsGeo(fields[0]) <==> CarriesGeo(fields[0]);
      assert forall i :: 0 <= i < |fields[1..]| ==> fields[1..][i] == fields[i + 1];
      if i: nat :| i < |fields| && CarriesGeo(fields[i]) {
        assert i > 0 ==> fields[1..][i - 1] == fields[i];
      }
      hide IsGeo, CarriesGeo;
    }
  }

  /** A successful Bind decides it: with a target set, the geometry path is taken exactly if some of the bound
      fields is a geometry field. */
  lemma BindDecidesGeoPath(w: Wrapper, rows: Rows, f: Faults)
    requires Step(w, Bind(rows), f).ok
    ensures TakesGeoPath(Step(w, Bind(rows), f).w) <==> w.ingest.target != "" && HasGeo(rows)
  {
    SomeGeoName(rows.schema);
    hide GeoNames;
  }

  /** The rows of the last successful Bind since the inner statement was recreated. */
  function Rebinds(w: Wrapper, op: Op, f: Faults, last: Option<Rows>): Option<Rows> {
    if op.Bind? && Step(w, op, f).ok then Some(op.rows)
    else if (op.SetSqlQuery? || op.SetSubstraitPlan?) && Swaps(w, f) then None
    else last
  }

  function LastBound(w: Wrapper, calls: seq<Call>, last: Option<Rows>): Option<Rows>
    decreases |calls|
  {
    if |calls| == 0 then last
    else
      var c := calls[0];
      LastBound(Step(w, c.op, c.faults).w, calls[1..], Rebinds(w, c.op, c.faults, last))
  }

  predicate SchemaKnown(w: Wrapper, last: Option<Rows>) {
    && w.boundSchema == (if last.Some? then Some(last.value.schema) else None)
    && (w.hasBound <==> last.Some?)
  }

  lemma StepKnowsSchema(w: Wrapper, op: Op, f: Faults, last: Option<Rows>)
    requires SchemaKnown(w, last)
    ensures SchemaKnown(Step(w, op, f).w, Rebinds(w, op, f, last))
  {
    hide Inner.Replay, Inner.IsIngestKey, TakesGeoPath, NoteIngest;
  }

  lemma {:induction false} RunKnowsSchema(w: Wrapper, calls: seq<Call>, last: Option<Rows>)
    requires SchemaKnown(w, last)
    ensures SchemaKnown(Run(w, calls), LastBound(w, calls, last))
    decreases |calls|
  {
    if |calls| == 0 {
    } else {
      var c := calls[0];
      StepKnowsSchema(w, c.op, c.faults, last);
      RunKnowsSchema(Step(w, c.op, c.faults).w, calls[1..], Rebinds(w, c.op, c.faults, last));
      hide Step, Rebinds;
    }
  }

  /** After any run with any failures: an update takes the geometry path exactly if a target is set and the
      rows bound last, on this inner statement, have a geometry field. */
  lemma GeoPathExactly(calls: seq<Call>)
    ensures var w := Run(NEW, calls); var last := LastBound(NEW, calls, None);
            TakesGeoPath(w) <==> w.ingest.target != "" && last.Some? && HasGeo(last.value)
  {
    RunKnowsSchema(NEW, calls, None);
    var last := LastBound(NEW, calls, None);
    if last.Some? {
      SomeGeoName(last.value.schema);
    }
    hide GeoNames, Step, LastBound, Run;
  }

  // ----- What is executed -----

  /** After a successful SetSubstraitPlan the plan is what executes, unless a target is still set. */
  lemma PlanIsExecuted(w: Wrapper, plan: seq<bv8>, f: Faults)
    requires Core(w) && Step(w, SetSubstraitPlan(plan), f).ok
    ensures var n := Step(w, SetSubstraitPlan(plan), f).w;
            && n.query == ""
            && Inner.Execution(n.inner) ==
               if w.hasBound || w.inner.target == "" then Some(Inner.PlanWork(plan)) else None
  {
    ReplaySetsOnlySettings(w.setOpts);
    hide Inner.Replay;
  }

  /** A target set and rows bound on any reachable statement: those rows are ingested into that table, exactly
      if the statement was not prepared before (or had the same rows staged). */
  lemma IngestIsExecutedExactly(w: Wrapper, table: string, rows: Rows)
    requires Core(w) && table != ""
    ensures var named := Step(w, SetOption("adbc.ingest.target_table", table), NO_FAULTS);
            var bound := Step(named.w, Bind(rows), NO_FAULTS);
            && named.ok && bound.ok
            && (Inner.Execution(bound.w.inner) == Some(Inner.IngestWork(table, rows)) <==>
                !w.prepared || w.inner.staged == Some(rows))
  {
    IngestKeysDiffer();
    hide Inner.IsIngestKey, Inner.Replay, Record;
  }

  /** The options of a geometry ingest turn the inner ingest to the interim table, in mode replace, temporary
      and unqualified, with the staged rows, and leave everything else alone; the wrapper still knows the
      real target. */
  lemma RedirectedIngest(w: Wrapper, interim: string, done: nat)
    requires TakesGeoPath(w) && done >= 5 && interim != ""
    ensures var o := Step(w, GeoRedirect(interim, done), NO_FAULTS); var s, n := w.inner, o.w.inner;
            && o.ok && o.w == w.(inner := n) && n == s.(target := interim, ingest := n.ingest)
            && n.ingest == s.ingest["adbc.ingest.mode" := Inner.Text("adbc.ingest.mode.replace")]
                                   ["adbc.ingest.temporary" := Inner.Text("true")]
                                   ["adbc.ingest.target_catalog" := Inner.Text("")]
                                   ["adbc.ingest.target_db_schema" := Inner.Text("")]
            && (s.staged.Some? ==> Inner.Execution(n) == Some(Inner.IngestWork(interim, s.staged.value)))
  {
    RedirectOptionsAreIngest(interim);
    var opts := RedirectOptions(interim);
    IngestKeysDiffer();
    hide Inner.IsIngestKey;
    var a := Inner.Replay(w.inner, opts[..1]);
    assert a == Inner.Set(w.inner, opts[0].key, opts[0].value) by {
      ReplayOneMore(w.inner, opts, 0);
    }
    ReplayOneMore(w.inner, opts, 1);
    ReplayOneMore(w.inner, opts, 2);
    ReplayOneMore(w.inner, opts, 3);
    ReplayOneMore(w.inner, opts, 4);
    assert opts[..5] == opts;
    hide Inner.Replay;
  }

  lemma ReplayOneMore(s: Inner.State, opts: seq<Setting>, i: nat)
    requires i < |opts|
    ensures Inner.Replay(s, opts[..i + 1]) == Inner.Set(Inner.Replay(s, opts[..i]), opts[i].key, opts[i].value)
    ensures Inner.Replay(s, opts[..0]) == s
  {
    assert opts[..i + 1][..i] == opts[..i];
  }

  // ----- Settings -----

  predicate Sets(op: Op, key: string) {
    (op.SetOption? || op.SetTyped?) && op.key == key
  }

  lemma StepKeepsSetting(w: Wrapper, op: Op, f: Faults, key: string)
    requires Core(w) && !Sets(op, key)
    ensures key in w.inner.settings ==>
              var s := Step(w, op, f).w.inner.settings; key in s && s[key] == w.inner.settings[key]
  {
    hide Inner.IsIngestKey, Inner.Replay;
    if op.GeoRedirect? {
      RedirectOptionsAreIngest(op.interim);
      var opts := RedirectOptions(op.interim);
      RedirectIsLocal(w.inner, opts);
      if op.done < |opts| {
        RedirectIsLocal(w.inner, opts[..op.done]);
      }
    } else if op.SetSqlQuery? || op.SetSubstraitPlan? {
      assert Swaps(w, f) ==> Inner.Replay(Inner.FRESH, w.setOpts).settings == w.inner.settings;
    }
  }

  lemma {:induction false} RunKeepsSetting(w: Wrapper, calls: seq<Call>, key: string)
    requires Core(w) && key in w.inner.settings && forall i :: 0 <= i < |calls| ==> !Sets(calls[i].op, key)
    ensures var s := Run(w, calls).inner.settings; key in s && s[key] == w.inner.settings[key]
    decreases |calls|
  {
    if |calls| == 0 {
    } else {
      var c := calls[0];
      StepKeepsSetting(w, c.op, c.faults, key);
      StepKeepsCore(w, c.op, c.faults);
      assert forall i :: 0 <= i < |calls[1..]| ==> calls[1..][i] == calls[i + 1];
      RunKeepsSetting(Step(w, c.op, c.faults).w, calls[1..], key);
      hide Step;
    }
  }

  /** An option that belongs to no ingest and was set successfully at any time is still in force on the inner
      statement after any further calls that do not set it again, however often that statement was replaced. */
  lemma SettingSurvivesReuse(history: seq<Call>, key: string, value: string, f: Faults, later: seq<Call>)
    requires !("adbc.ingest." <= key)
    requires Step(Run(NEW, history), SetOption(key, value), f).ok
    requires forall i :: 0 <= i < |later| ==> !Sets(later[i].op, key)
    ensures var s := Run(Step(Run(NEW, history), SetOption(key, value), f).w, later).inner.settings;
            key in s && s[key] == Inner.Text(value)
  {
    hide Step, Core;
    var w := Run(NEW, history);
    ReachableIsCore(history);
    hide Run;
    StepKeepsCore(w, SetOption(key, value), f);
    SettingIsSet(w, key, value, f);
    RunKeepsSetting(Step(w, SetOption(key, value), f).w, later, key);
  }

  lemma ReachableIsCore(history: seq<Call>)
    ensures Core(Run(NEW, history))
  {
    RunKeepsCore(NEW, history);
  }

  lemma SettingIsSet(w: Wrapper, key: string, value: string, f: Faults)
    requires !("adbc.ingest." <= key) && Step(w, SetOption(key, value), f).ok
    ensures var s := Step(w, SetOption(key, value), f).w.inner.settings; key in s && s[key] == Inner.Text(value)
  {
    TargetKeyIsIngestKey();
  }

  /** An option is kept for replay exactly if it belongs to no ingest. */
  lemma KeptForReplayExactly(w: Wrapper, key: string, value: string, f: Faults)
    requires Step(w, SetOption(key, value), f).ok
    ensures Step(w, SetOption(key, value), f).w.setOpts ==
            if "adbc.ingest." <= key then w.setOpts else w.setOpts + [Inner.Setting(key, Inner.Text(value))]
  {
  }

  // ----- Failures -----

  /** A query or plan that could not be set has changed nothing, unless rows were bound and a new inner statement
      with all the options had been made already. */
  lemma FailedQueryChangesNothingExactly(w: Wrapper, op: Op, f: Faults)
    requires (op.SetSqlQuery? || op.SetSubstraitPlan?) && !Step(w, op, f).ok
    ensures Step(w, op, f).w == w <==>
            !w.hasBound || f.newStatement || (f.replay.Some? && f.replay.value < |w.setOpts|)
  {
  }

  /** It fails exactly if one of the calls it makes does. */
  lemma QueryFailsExactly(w: Wrapper, op: Op, f: Faults)
    requires op.SetSqlQuery? || op.SetSubstraitPlan?
    ensures Step(w, op, f).ok <==>
            !f.call && (w.hasBound ==>
                          !f.newStatement && !(f.replay.Some? && f.replay.value < |w.setOpts|) && !f.closeOld)
  {
  }

  /** Any other call that fails has changed nothing, except that a failing Bind may have prepared the query. */
  lemma FailedCallChangesNothing(w: Wrapper, op: Op, f: Faults)
    requires !Step(w, op, f).ok
    ensures op.SetOption? || op.SetTyped? || op.Prepare? ==> Step(w, op, f).w == w
    ensures op.Bind? && Step(w, op, f).w != w ==>
              && w.query != "" && w.ingest.target == "" && !w.prepared
              && Step(w, op, f).w == Step(w, Prepare, NO_FAULTS).w
  {
  }

  /** Binding fails exactly if the upstream call does, or the prepare that the code makes of its own accord. */
  lemma BindFailsExactly(w: Wrapper, rows: Rows, f: Faults)
    ensures Step(w, Bind(rows), f).ok <==>
            !f.call && (w.query != "" && w.ingest.target == "" && !w.prepared ==>
                          !f.prepare && w.inner.query != Inner.NoQuery)
  {
  }

  // ----- Without failures -----

  /** Without failures a new query or plan can be set on every statement, and a query then executes. */
  lemma QueryCanAlwaysBeSet(w: Wrapper, text: string, plan: seq<bv8>)
    requires Core(w)
    ensures Step(w, SetSubstraitPlan(plan), NO_FAULTS).ok
    ensures var o := Step(w, SetSqlQuery(text), NO_FAULTS);
            o.ok && o.w.query == text && o.w.ingest.target == "" && !o.w.hasBound
            && Inner.Execution(o.w.inner) == Some(Inner.SqlWork(text)) && Inner.Times(o.w.inner) == 1
  {
    ReplaySetsOnlySettings(w.setOpts);
    hide Inner.Replay;
  }

  /** And rows can be bound to it, once or again: it then executes once per row. */
  lemma RowsCanAlwaysBeBound(w: Wrapper, text: string, rows: Rows)
    requires Core(w) && text != ""
    ensures var given := Step(w, SetSqlQuery(text), NO_FAULTS).w; var o := Step(given, Bind(rows), NO_FAULTS);
            o.ok && Inner.Execution(o.w.inner) == Some(Inner.SqlWork(text)) && Inner.Times(o.w.inner) == rows.count
  {
    QueryCanAlwaysBeSet(w, text, []);
    StepKeepsCore(w, SetSqlQuery(text), NO_FAULTS);
  }
}
