/**
The statement wrapper of go/gizmosql/driver.go as a transition system: what each method makes of the
wrapper's fields and of the inner statement, for every way the inner calls can fail.
*/
module StatementSpec {
  import opened Wrappers
  import Inner

  type Rows = Inner.Rows
  type OptionValue = Inner.OptionValue
  type Setting = Inner.Setting

  datatype Ingest = Ingest(target: string, mode: string, catalog: string, dbSchema: string, temp: bool)

  const NO_INGEST := Ingest("", "", "", "", false)

  datatype Wrapper = Wrapper(
    inner: Inner.State,
    query: string,
    hasBound: bool,
    prepared: bool,
    setOpts: seq<Setting>,
    ingest: Ingest,
    boundSchema: Option<Inner.Schema>)

  const NEW := Wrapper(Inner.FRESH, "", false, false, [], NO_INGEST, None)

  /** Which of the inner calls made by one wrapper call fail. `replay` is the position of the option
      whose replay fails, if one does. */
  datatype Faults = Faults(newStatement: bool, replay: Option<nat>, closeOld: bool, prepare: bool, call: bool)

  const NO_FAULTS := Faults(false, None, false, false, false)

  datatype Op =
    | SetOption(key: string, value: string)
    | SetTyped(key: string, typed: OptionValue)
    | SetSqlQuery(text: string)
    | SetSubstraitPlan(plan: seq<bv8>)
    | Prepare
    | Bind(rows: Rows)
    | GeoRedirect(interim: string, done: nat)

  datatype Outcome = Outcome(w: Wrapper, ok: bool)

  function Record(opts: seq<Setting>, key: string, value: OptionValue): seq<Setting> {
    if Inner.IsIngestKey(key) then opts else opts + [Inner.Setting(key, value)]
  }

  function NoteIngest(g: Ingest, key: string, value: string): Ingest {
    if key == Inner.TARGET_TABLE then g.(target := value)
    else if key == Inner.MODE then g.(mode := value)
    else if key == Inner.CATALOG then g.(catalog := value)
    else if key == Inner.DB_SCHEMA then g.(dbSchema := value)
    else if key == Inner.TEMPORARY then g.(temp := value == Inner.ENABLED)
    else g
  }

  predicate ReplayFails(opts: seq<Setting>, f: Faults) {
    f.replay.Some? && f.replay.value < |opts|
  }

  /** The fresh inner statement has taken the place of the old one. */
  predicate Swaps(w: Wrapper, f: Faults) {
    w.hasBound && !f.newStatement && !ReplayFails(w.setOpts, f)
  }

  /** `resetForNewQuery`. */
  function Reset(w: Wrapper, f: Faults): Outcome {
    if !w.hasBound then Outcome(w, true)
    else if !Swaps(w, f) then Outcome(w, false)
    else
      Outcome(w.(inner := Inner.Replay(Inner.FRESH, w.setOpts), hasBound := false, prepared := false,
                 boundSchema := None), !f.closeOld)
  }

  function Prepared(w: Wrapper, fails: bool): Outcome {
    if fails || w.inner.query.NoQuery? then Outcome(w, false)
    else Outcome(w.(inner := Inner.Prepare(w.inner), prepared := true), true)
  }

  predicate NeedsPrepare(w: Wrapper) {
    w.query != "" && w.ingest.target == "" && !w.prepared
  }

  function AutoPrepared(w: Wrapper, fails: bool): Outcome {
    if NeedsPrepare(w) then Prepared(w, fails) else Outcome(w, true)
  }

  /** The option writes that turn the inner statement's ingest to the interim table. */
  function RedirectOptions(interim: string): seq<Setting> {
    [Inner.Setting(Inner.TARGET_TABLE, Inner.Text(interim)),
     Inner.Setting(Inner.MODE, Inner.Text("adbc.ingest.mode.replace")),
     Inner.Setting(Inner.TEMPORARY, Inner.Text("true")),
     Inner.Setting(Inner.CATALOG, Inner.Text("")),
     Inner.Setting(Inner.DB_SCHEMA, Inner.Text(""))]
  }

  predicate IsGeo(f: Inner.Field) {
    f.extension.Some? && "geoarrow." <= f.extension.value
  }

  /** The names of the fields tagged with a geoarrow extension. */
  function GeoFieldNames(schema: Option<Inner.Schema>): seq<string> {
    if schema.None? then [] else GeoNames(schema.value)
  }

  function GeoNames(fields: Inner.Schema): seq<string> {
    if fields == [] then []
    else (if IsGeo(fields[0]) then [fields[0].name] else []) + GeoNames(fields[1..])
  }

  predicate TakesGeoPath(w: Wrapper) {
    w.ingest.target != "" && GeoFieldNames(w.boundSchema) != []
  }

  function Step(w: Wrapper, op: Op, f: Faults): Outcome {
    match op
    case SetOption(key, value) =>
      if f.call then Outcome(w, false)
      else Outcome(w.(inner := Inner.Set(w.inner, key, Inner.Text(value)),
                      setOpts := Record(w.setOpts, key, Inner.Text(value)),
                      ingest := NoteIngest(w.ingest, key, value)), true)
    case SetTyped(key, typed) =>
      if f.call || typed.Text? then Outcome(w, false)
      else Outcome(w.(inner := Inner.Set(w.inner, key, typed), setOpts := Record(w.setOpts, key, typed)), true)
    case SetSqlQuery(text) =>
      var r := Reset(w, f);
      if !r.ok || f.call then Outcome(r.w, false)
      else Outcome(r.w.(inner := Inner.SetSql(r.w.inner, text), query := text, prepared := false,
                        ingest := r.w.ingest.(target := "")), true)
    case SetSubstraitPlan(plan) =>
      var r := Reset(w, f);
      if !r.ok || f.call then Outcome(r.w, false)
      else Outcome(r.w.(inner := Inner.SetPlan(r.w.inner, plan), query := "", prepared := false), true)
    case Prepare => Prepared(w, f.call)
    case Bind(rows) =>
      var r := AutoPrepared(w, f.prepare);
      if !r.ok || f.call then Outcome(r.w, false)
      else Outcome(r.w.(inner := Inner.Bind(r.w.inner, rows), hasBound := true,
                        boundSchema := Some(rows.schema)), true)
    case GeoRedirect(interim, done) =>
      // the option writes of executeGeoIngest, of which the first `done` succeed
      var opts := RedirectOptions(interim);
      if !TakesGeoPath(w) then Outcome(w, false)
      else if done < |opts| then Outcome(w.(inner := Inner.Replay(w.inner, opts[..done])), false)
      else Outcome(w.(inner := Inner.Replay(w.inner, opts)), true)
  }

  datatype Call = Call(op: Op, faults: Faults)

  function Run(w: Wrapper, calls: seq<Call>): Wrapper
    decreases |calls|
  {
    if calls == [] then w else Run(Step(w, calls[0].op, calls[0].faults).w, calls[1..])
  }

  // ----- What every call keeps, whatever fails -----

  predicate Replayable(opts: seq<Setting>) {
    forall i :: 0 <= i < |opts| ==> !Inner.IsIngestKey(opts[i].key)
  }

  predicate Core(w: Wrapper) {
    && w.inner.open
    && (w.inner.staged.Some? ==> w.hasBound)
    && (w.inner.params.Some? ==> w.hasBound && w.prepared)
    && (w.boundSchema.Some? <==> w.hasBound)
    && w.prepared == w.inner.prepared
    && (w.prepared ==> !w.inner.query.NoQuery?)
    && (w.ingest.target == "" ==> w.inner.target == "")
    && (w.query != "" ==> w.inner.query == Inner.Sql(w.query) || w.inner.query == Inner.NoQuery)
    && Replayable(w.setOpts)
    && w.inner.settings == Inner.Replay(Inner.FRESH, w.setOpts).settings
  }

  /** The replayed options touch nothing but the settings. */
  lemma {:induction false} ReplaySetsOnlySettings(opts: seq<Setting>)
    requires Replayable(opts)
    ensures var r := Inner.Replay(Inner.FRESH, opts); r == Inner.FRESH.(settings := r.settings)
  {
    if opts == [] {
    } else {
      var n := |opts| - 1;
      ReplaySetsOnlySettings(opts[..n]);
      assert !Inner.IsIngestKey(opts[n].key);
      assert Inner.IsIngestKey(Inner.TARGET_TABLE);
    }
  }

  lemma TargetKeyIsIngestKey()
    ensures Inner.IsIngestKey(Inner.TARGET_TABLE)
  {
  }

  lemma RecordReplays(w: Wrapper, key: string, value: OptionValue)
    requires Core(w)
    ensures Replayable(Record(w.setOpts, key, value))
    ensures Inner.Set(w.inner, key, value).settings ==
            Inner.Replay(Inner.FRESH, Record(w.setOpts, key, value)).settings
  {
    hide Inner.IsIngestKey;
    TargetKeyIsIngestKey();
    var opts := Record(w.setOpts, key, value);
    if !Inner.IsIngestKey(key) {
      assert opts[..|opts| - 1] == w.setOpts;
    }
  }

  /** Ingest options leave everything but the target and the ingest options alone. */
  lemma {:induction false} RedirectIsLocal(s: Inner.State, opts: seq<Setting>)
    requires forall i :: 0 <= i < |opts| ==> Inner.IsIngestKey(opts[i].key)
    ensures var r := Inner.Replay(s, opts); r == s.(target := r.target, ingest := r.ingest)
  {
    hide Inner.IsIngestKey;
    if opts == [] {
    } else {
      RedirectIsLocal(s, opts[..|opts| - 1]);
    }
  }

  lemma RedirectOptionsAreIngest(interim: string)
    ensures forall i :: 0 <= i < |RedirectOptions(interim)| ==> Inner.IsIngestKey(RedirectOptions(interim)[i].key)
  {
  }

  lemma SetKeepsCore(w: Wrapper, key: string, value: OptionValue, g: Ingest)
    requires Core(w)
    requires g == if value.Text? then NoteIngest(w.ingest, key, value.s) else w.ingest
    ensures Core(w.(inner := Inner.Set(w.inner, key, value), setOpts := Record(w.setOpts, key, value), ingest := g))
  {
    RecordReplays(w, key, value);
    hide Inner.IsIngestKey, Inner.Replay, Record;
  }

  lemma ResetKeepsCore(w: Wrapper, f: Faults)
    requires Core(w)
    ensures Core(Reset(w, f).w)
    ensures var r := Reset(w, f); r.ok ==> !r.w.hasBound
  {
    ReplaySetsOnlySettings(w.setOpts);
  }

  lemma StepKeepsCore(w: Wrapper, op: Op, f: Faults)
    requires Core(w)
    ensures Core(Step(w, op, f).w)
  {
    hide Inner.Replay, Inner.IsIngestKey;
    match op
    case SetOption(key, value) => SetKeepsCore(w, key, Inner.Text(value), NoteIngest(w.ingest, key, value));
    case SetTyped(key, typed) =>
      if !typed.Text? {
        SetKeepsCore(w, key, typed, w.ingest);
      }
    case SetSqlQuery(_) => ResetKeepsCore(w, f);
    case SetSubstraitPlan(_) => ResetKeepsCore(w, f);
    case Prepare =>
    case Bind(_) =>
    case GeoRedirect(interim, done) =>
      RedirectOptionsAreIngest(interim);
      var opts := RedirectOptions(interim);
      RedirectIsLocal(w.inner, opts);
      if done < |opts| {
        RedirectIsLocal(w.inner, opts[..done]);
      }
  }

  lemma {:induction false} RunKeepsCore(w: Wrapper, calls: seq<Call>)
    requires Core(w)
    ensures Core(Run(w, calls))
    decreases |calls|
  {
    if calls == [] {
    } else {
      StepKeepsCore(w, calls[0].op, calls[0].faults);
      RunKeepsCore(Step(w, calls[0].op, calls[0].faults).w, calls[1..]);
    }
  }
}
