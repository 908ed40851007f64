/**
What the exported entry points of go/pkg/gizmosql/driver.go do to the `private_data` fields of the C
structs, to the table of Go handles behind them, to the poison flag, and to the reference counts of
exported readers. The Go driver behind an entry point is unseen: each call says how it went.
*/
module HandleSpec {
  import opened Wrappers

  datatype Kind = Database | Connection | Statement | Stream

  /** A C struct, named by its kind and address. */
  datatype Ref = Ref(kind: Kind, at: nat)

  /** What a handle stands for. An object is open once its Go side exists. */
  datatype Object =
    | DatabaseObject(open: bool)
    | ConnectionObject(open: bool)
    | StatementObject
    | StreamObject(reader: nat)
  {
    function Kind(): Kind {
      match this
      case DatabaseObject(_) => Database
      case ConnectionObject(_) => Connection
      case StatementObject => Statement
      case StreamObject(_) => Stream
    }

    predicate Opened() {
      match this
      case DatabaseObject(open) => open
      case ConnectionObject(open) => open
      case _ => true
    }
  }

  type Handle = nat

  const NIL: Handle := 0

  /** `refs[r]` is the reference count of the r-th reader that was exported. */
  datatype State = State(
    poisoned: bool,
    fields: map<Ref, Handle>,
    table: map<Handle, Object>,
    next: Handle,
    refs: seq<nat>)
  {
    /** The `private_data` of a struct; a struct nobody has filled in is zeroed. */
    function Field(s: Ref): Handle {
      if s in fields then fields[s] else NIL
    }

    /** Whether `Value().(*T)` finds what it asks for; otherwise Go panics. */
    predicate Resolves(s: Ref) {
      Field(s) in table && table[Field(s)].Kind() == s.kind
    }

    function Count(reader: nat): nat {
      if reader < |refs| then refs[reader] else 0
    }

    /** The counts with one reference to a reader given up. */
    function Less(reader: nat): seq<nat> {
      if Count(reader) == 0 then refs else refs[reader := refs[reader] - 1]
    }
  }

  function Initial(): State {
    State(false, map[], map[], 1, [])
  }

  datatype Status = Ok | InvalidState | Internal | DriverError | BadStream | Crash

  /** How the Go driver behaved: a late failure or panic is one after the connection was opened. */
  datatype Outcome = Done | Fails | FailsLate | Panics | PanicsLate
  {
    predicate Panicked() {
      Panics? || PanicsLate?
    }
  }

  /** The kinds whose calls are recovered from and guarded by the poison flag. */
  type Guarded = k: Kind | k != Stream witness Database

  /** A struct argument is an address or NULL. */
  datatype Op =
    | DatabaseNew(db: Option<nat>)
    | DatabaseInit(db: Option<nat>, how: Outcome)
    | DatabaseRelease(db: Option<nat>, how: Outcome)
    | ConnectionNew(conn: Option<nat>)
    | ConnectionInit(conn: Option<nat>, db: Option<nat>, how: Outcome)
    | ConnectionRelease(conn: Option<nat>, how: Outcome)
    | StatementNew(conn: Option<nat>, stmt: Option<nat>, how: Outcome)
    | StatementRelease(stmt: Option<nat>, how: Outcome)
    | Execute(stmt: Option<nat>, out: nat, how: Outcome)      // AdbcStatementExecuteQuery with a stream
    | Read(conn: Option<nat>, into: Option<nat>, how: Outcome) // the six connection calls that answer with a stream
    | Configure(kind: Guarded, at: Option<nat>, how: Outcome) // an option set before initialization
    | Call(kind: Guarded, at: Option<nat>, how: Outcome)      // a call on an initialized object without a stream
    | StreamCall(stream: Option<nat>)                         // get_next, get_schema, get_last_error
    | StreamRelease(stream: Option<nat>)

  /** What a step does to the fields, the table and the counts. */
  datatype Effect =
    | Nothing
    | Fill(r: Ref, o: Object)        // cgo.NewHandle, stored into the struct
    | Empty(r: Ref)                  // the struct is emptied and its handle deleted
    | Clear(r: Ref)                  // the struct is emptied, but it held no handle of its kind
    | Open(r: Ref, o: Object)        // the object behind the handle changes in place

  datatype Decision = Decision(effect: Effect, poison: bool, status: Status)

  function Refused(status: Status): Decision {
    Decision(Nothing, false, status)
  }

  /** A recovered panic. */
  const PANICKED := Decision(Nothing, true, Internal)

  /** `AdbcDatabaseNew` and `AdbcConnectionNew`; a NULL struct is a nil dereference. */
  function New(s: State, kind: Kind, at: Option<nat>, o: Object): Decision {
    if s.poisoned then Refused(Internal)
    else if at.None? then PANICKED
    else if s.Field(Ref(kind, at.value)) != NIL then Refused(InvalidState)
    else Decision(Fill(Ref(kind, at.value), o), false, Ok)
  }

  /** What the `check...Alloc` functions refuse. */
  predicate Allocated(s: State, kind: Kind, at: Option<nat>) {
    !s.poisoned && at.Some? && s.Field(Ref(kind, at.value)) != NIL
  }

  /** A call that starts with a `check...Alloc`. */
  function Configuring(s: State, kind: Kind, at: Option<nat>, how: Outcome): Decision {
    if !Allocated(s, kind, at) then Refused(InvalidState)
    else if !s.Resolves(Ref(kind, at.value)) || how.Panicked() then PANICKED
    else if how == Done then Refused(Ok)
    else Refused(DriverError)
  }

  /** What the `check...Init` functions accept. */
  predicate Ready(s: State, kind: Kind, at: Option<nat>) {
    && Allocated(s, kind, at)
    && s.Resolves(Ref(kind, at.value))
    && s.table[s.Field(Ref(kind, at.value))].Opened()
  }

  /** Every call that starts with a `check...Init`. */
  function Calling(s: State, kind: Kind, at: Option<nat>, how: Outcome): Decision {
    if !Allocated(s, kind, at) then Refused(InvalidState)
    else if !s.Resolves(Ref(kind, at.value)) then PANICKED
    else if !s.table[s.Field(Ref(kind, at.value))].Opened() then Refused(InvalidState)
    else Configuring(s, kind, at, how)
  }

  function InitDatabase(s: State, at: Option<nat>, how: Outcome): Decision {
    if !Allocated(s, Database, at) then Refused(InvalidState)
    else if !s.Resolves(Ref(Database, at.value)) then PANICKED
    else if s.table[s.Field(Ref(Database, at.value))].Opened() then Refused(InvalidState)
    else
      var d := Configuring(s, Database, at, how);
      if d.status == Ok then d.(effect := Open(Ref(Database, at.value), DatabaseObject(true))) else d
  }

  /** Options that fail, or panic, after the connection was opened leave it open. */
  function InitConnection(s: State, at: Option<nat>, db: Option<nat>, how: Outcome): Decision {
    if !Allocated(s, Connection, at) then Refused(InvalidState)
    else if !s.Resolves(Ref(Connection, at.value)) then PANICKED
    else if s.table[s.Field(Ref(Connection, at.value))].Opened() then Refused(InvalidState)
    else
      var d := Calling(s, Database, db, how);
      if Ready(s, Database, db) && (how == Done || how == FailsLate || how == PanicsLate)
      then d.(effect := Open(Ref(Connection, at.value), ConnectionObject(true)))
      else d
  }

  /** The three releases: only closing an open object can fail or panic, and then the handle is gone already. */
  function Releasing(s: State, kind: Kind, at: Option<nat>, how: Outcome): Decision {
    if s.poisoned && kind == Statement then Refused(Internal)
    else if !Allocated(s, kind, at) then Refused(InvalidState)
    else
      var r := Ref(kind, at.value);
      if !s.Resolves(r) then Decision(Clear(r), true, Internal)
      else if !s.table[s.Field(r)].Opened() then Decision(Empty(r), false, Ok)
      else if how.Panicked() then Decision(Empty(r), true, Internal)
      else if how == Done || kind == Database then Decision(Empty(r), false, Ok)
      else Decision(Empty(r), false, DriverError)
  }

  function NewStatement(s: State, conn: Option<nat>, stmt: Option<nat>, how: Outcome): Decision {
    if s.poisoned then Refused(Internal)
    else if stmt.None? then PANICKED
    else if s.Field(Ref(Statement, stmt.value)) != NIL then Refused(InvalidState)
    else
      var d := Calling(s, Connection, conn, how);
      if d.status == Ok then d.(effect := Fill(Ref(Statement, stmt.value), StatementObject)) else d
  }

  /** A result is exported into the stream whatever the stream held. */
  function Executing(s: State, stmt: Option<nat>, out: nat, how: Outcome): Decision {
    var d := Calling(s, Statement, stmt, how);
    if d.status == Ok then d.(effect := Fill(Ref(Stream, out), StreamObject(|s.refs|))) else d
  }

  /** The same for the calls on a connection; exporting into a NULL stream is a nil dereference. */
  function Reading(s: State, conn: Option<nat>, out: Option<nat>, how: Outcome): Decision {
    var d := Calling(s, Connection, conn, how);
    if d.status != Ok then d
    else if out.None? then PANICKED
    else d.(effect := Fill(Ref(Stream, out.value), StreamObject(|s.refs|)))
  }

  /** The stream callbacks check no poison and recover from no panic. */
  function StreamCalling(s: State, at: Option<nat>): Decision {
    if at.None? || s.Field(Ref(Stream, at.value)) == NIL then Refused(BadStream)
    else if !s.Resolves(Ref(Stream, at.value)) then Refused(Crash)
    else Refused(Ok)
  }

  /** Releasing a reader nobody holds any more is a panic in Arrow. */
  function ReleasingStream(s: State, at: Option<nat>): Decision {
    if at.None? || s.Field(Ref(Stream, at.value)) == NIL then Refused(Ok)
    else
      var r := Ref(Stream, at.value);
      if !s.Resolves(r) then Decision(Clear(r), false, Crash)
      else Decision(Empty(r), false, if s.Count(s.table[s.Field(r)].reader) == 0 then Crash else Ok)
  }

  function Decide(s: State, op: Op): Decision {
    match op
    case DatabaseNew(db) => New(s, Database, db, DatabaseObject(false))
    case DatabaseInit(db, how) => InitDatabase(s, db, how)
    case DatabaseRelease(db, how) => Releasing(s, Database, db, how)
    case ConnectionNew(conn) => New(s, Connection, conn, ConnectionObject(false))
    case ConnectionInit(conn, db, how) => InitConnection(s, conn, db, how)
    case ConnectionRelease(conn, how) => Releasing(s, Connection, conn, how)
    case StatementNew(conn, stmt, how) => NewStatement(s, conn, stmt, how)
    case StatementRelease(stmt, how) => Releasing(s, Statement, stmt, how)
    case Execute(stmt, out, how) => Executing(s, stmt, out, how)
    case Read(conn, out, how) => Reading(s, conn, out, how)
    case Configure(kind, at, how) => Configuring(s, kind, at, how)
    case Call(kind, at, how) => Calling(s, kind, at, how)
    case StreamCall(stream) => StreamCalling(s, stream)
    case StreamRelease(stream) => ReleasingStream(s, stream)
  }

  function Apply(s: State, e: Effect): State {
    match e
    case Nothing => s
    case Fill(r, o) =>
      s.(fields := s.fields[r := s.next], table := s.table[s.next := o], next := s.next + 1,
         refs := if o.StreamObject? then s.refs + [1] else s.refs)
    case Empty(r) =>
      s.(fields := s.fields[r := NIL], table := s.table - {s.Field(r)},
         refs := if s.Resolves(r) && r.kind == Stream then s.Less(s.table[s.Field(r)].reader) else s.refs)
    case Clear(r) => s.(fields := s.fields[r := NIL])
    case Open(r, o) => s.(table := s.table[s.Field(r) := o])
  }

  function Step(s: State, op: Op): State {
    var d := Decide(s, op);
    Apply(s, d.effect).(poisoned := s.poisoned || d.poison)
  }

  function Run(s: State, ops: seq<Op>): State
    decreases |ops|
  {
    if |ops| == 0 then s else Run(Step(s, ops[0]), ops[1..])
  }
}
