/**
The upstream Flight SQL statement as go/gizmosql/driver.go describes it: binding without a prepared
statement stages bulk-ingest rows, a finished ingest leaves them staged, and staged rows without an
ingest target make every later execution fail.
*/
module Inner {
  import opened Wrappers

  datatype OptionValue =
    | Text(s: string)
    | Bytes(b: seq<bv8>)
    | Integer(i: int)
    | Double(d: real)

  datatype Setting = Setting(key: string, value: OptionValue)

  /** A field of an Arrow schema with its extension name, if it carries one. */
  datatype Field = Field(name: string, extension: Option<string>)

  type Schema = seq<Field>

  /** A bound batch or stream: its schema and its number of rows. */
  datatype Rows = Rows(schema: Schema, count: nat)

  datatype Query = NoQuery | Sql(text: string) | Plan(plan: seq<bv8>)

  const INGEST_PREFIX := "adbc.ingest."
  const TARGET_TABLE := "adbc.ingest.target_table"
  const MODE := "adbc.ingest.mode"
  const CATALOG := "adbc.ingest.target_catalog"
  const DB_SCHEMA := "adbc.ingest.target_db_schema"
  const TEMPORARY := "adbc.ingest.temporary"
  const ENABLED := "true"

  predicate IsIngestKey(key: string) {
    INGEST_PREFIX <= key
  }

  /** `ingest` holds the `adbc.ingest.` options other than the target table. */
  datatype State = State(
    query: Query,
    prepared: bool,
    params: Option<Rows>,
    staged: Option<Rows>,
    target: string,
    ingest: map<string, OptionValue>,
    settings: map<string, OptionValue>,
    open: bool)

  const FRESH := State(NoQuery, false, None, None, "", map[], map[], true)

  function Set(s: State, key: string, value: OptionValue): State {
    if key == TARGET_TABLE && value.Text? then s.(target := value.s)
    else if IsIngestKey(key) then s.(ingest := s.ingest[key := value])
    else s.(settings := s.settings[key := value])
  }

  /** A new SQL query closes the prepared statement and drops the ingest target, not staged rows. */
  function SetSql(s: State, text: string): State {
    s.(query := Sql(text), prepared := false, params := None, target := "")
  }

  function SetPlan(s: State, plan: seq<bv8>): State {
    s.(query := Plan(plan), prepared := false, params := None)
  }

  function Prepare(s: State): State {
    s.(prepared := true, params := None)
  }

  function Bind(s: State, rows: Rows): State {
    if s.prepared then s.(params := Some(rows)) else s.(staged := Some(rows))
  }

  /** What executing the statement makes the server do. */
  datatype Work = SqlWork(text: string) | PlanWork(plan: seq<bv8>) | IngestWork(target: string, rows: Rows)

  /** None: the execution is refused. Staged rows without a target are refused even when there is a
      query to run. */
  function Execution(s: State): Option<Work> {
    if s.target != "" then
      if s.staged.None? then None else Some(IngestWork(s.target, s.staged.value))
    else if s.staged.Some? then None
    else match s.query
      case NoQuery => None
      case Sql(text) => Some(SqlWork(text))
      case Plan(plan) => Some(PlanWork(plan))
  }

  /** A bound query executes once per bound row. */
  function Times(s: State): nat {
    if s.target == "" && s.params.Some? then s.params.value.count else 1
  }

  /** Everything a SQL execution reads. */
  datatype SqlView = SqlView(query: Query, prepared: bool, params: Option<Rows>, staged: Option<Rows>,
                             target: string, settings: map<string, OptionValue>)

  function View(s: State): SqlView {
    SqlView(s.query, s.prepared, s.params, s.staged, s.target, s.settings)
  }

  function Replay(s: State, opts: seq<Setting>): State {
    if opts == [] then s
    else
      var last := opts[|opts| - 1];
      Set(Replay(s, opts[..|opts| - 1]), last.key, last.value)
  }

  /** The upstream object. A call that fails changes nothing. */
  class Statement {
    var state: State

    constructor ()
      ensures state == FRESH
    {
      state := FRESH;
    }

    method SetOption(key: string, value: OptionValue, fails: bool) returns (ok: bool)
      modifies this
      ensures ok == !fails && state == if ok then Set(old(state), key, value) else old(state)
    {
      if !fails {
        state := Set(state, key, value);
      }
      return !fails;
    }

    method SetSqlQuery(text: string, fails: bool) returns (ok: bool)
      modifies this
      ensures ok == !fails && state == if ok then SetSql(old(state), text) else old(state)
    {
      if !fails {
        state := SetSql(state, text);
      }
      return !fails;
    }

    method SetSubstraitPlan(plan: seq<bv8>, fails: bool) returns (ok: bool)
      modifies this
      ensures ok == !fails && state == if ok then SetPlan(old(state), plan) else old(state)
    {
      if !fails {
        state := SetPlan(state, plan);
      }
      return !fails;
    }

    /** There must be a query to prepare. */
    method PrepareQuery(fails: bool) returns (ok: bool)
      modifies this
      ensures ok == (!fails && old(state).query != NoQuery)
      ensures state == if ok then Prepare(old(state)) else old(state)
    {
      ok := !fails && state.query != NoQuery;
      if ok {
        state := Prepare(state);
      }
    }

    method BindRows(rows: Rows, fails: bool) returns (ok: bool)
      modifies this
      ensures ok == !fails && state == if ok then Bind(old(state), rows) else old(state)
    {
      if !fails {
        state := Bind(state, rows);
      }
      return !fails;
    }

    method Close()
      modifies this
      ensures state == old(state).(open := false)
    {
      state := state.(open := false);
    }
  }
}
