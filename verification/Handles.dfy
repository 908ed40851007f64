/**
The entry points of go/pkg/gizmosql/driver.go as they change the poison flag, the table of Go handles and
the `private_data` fields, step by step. `how` says what the Go driver did when it was called.
*/
module Handles {
  import opened Wrappers
  import opened HandleSpec
  import opened HandleRuns
  import Outcomes = HandleOutcomes

  function ReleaseOp(kind: Guarded, at: Option<nat>, how: Outcome): Op {
    match kind
    case Database => DatabaseRelease(at, how)
    case Connection => ConnectionRelease(at, how)
    case Statement => StatementRelease(at, how)
  }

  class Driver {
    var poisoned: bool
    var fields: map<Ref, Handle>
    var table: map<Handle, Object>
    var next: Handle
    var refs: seq<nat>

    ghost function State(): State
      reads this
    {
      HandleSpec.State(poisoned, fields, table, next, refs)
    }

    ghost predicate Valid()
      reads this
    {
      Rooted(State()) && Tracked(State())
    }

    constructor ()
      ensures State() == Initial() && Valid()
    {
      poisoned, fields, table, next, refs := false, map[], map[], 1, [];
    }

    function PrivateData(r: Ref): Handle
      reads this
      ensures PrivateData(r) == State().Field(r)
    {
      if r in fields then fields[r] else NIL
    }

    /** `poison`. */
    method Poison() returns (status: Status)
      modifies this`poisoned
      ensures State() == old(State()).(poisoned := true) && status == Internal
    {
      poisoned := true;
      return Internal;
    }

    /** `cgo.NewHandle` and `createHandle`. */
    method NewHandle(r: Ref, o: Object)
      modifies this`fields, this`table, this`next
      ensures State() == Apply(old(State()), Fill(r, o)).(refs := old(refs))
    {
      table := table[next := o];
      fields := fields[r := next];
      next := next + 1;
    }

    /** `exportRecordReader`: the stream holds the reader too. */
    method ExportRecordReader(rdr: nat, out: nat)
      requires rdr < |refs|
      modifies this
      ensures State() == Apply(old(State()), Fill(Ref(Stream, out), StreamObject(rdr)))
                         .(refs := old(refs)[rdr := old(refs)[rdr] + 1])
    {
      NewHandle(Ref(Stream, out), StreamObject(rdr));
      refs := refs[rdr := refs[rdr] + 1];
    }

    /** The start of every release: empty the struct, find the object, delete the handle. */
    method TakeHandle(r: Ref) returns (o: Object)
      requires Valid() && State().Field(r) != NIL
      modifies this`fields, this`table
      ensures State() == Apply(old(State()), Empty(r)).(refs := old(refs))
      ensures o == old(table)[old(State()).Field(r)] && o.Kind() == r.kind
    {
      FieldsResolve(State());
      assert State().Resolves(r);
      var h := PrivateData(r);
      fields := fields[r := NIL];
      o := table[h];
      table := table - {h};
    }

    /** The Go side of an object is set up in place, behind the handle it has. */
    method SetObject(r: Ref, o: Object)
      modifies this`table
      ensures State() == Apply(old(State()), Open(r, o))
    {
      table := table[PrivateData(r) := o];
    }

    /** `checkDBAlloc`, `checkConnAlloc` and `checkStmtAlloc`. */
    method CheckAlloc(kind: Kind, at: Option<nat>) returns (ok: bool)
      ensures ok <==> Allocated(State(), kind, at)
    {
      if poisoned {
        return false;
      }
      match at {
        case None => return false;
        case Some(a) => return PrivateData(Ref(kind, a)) != NIL;
      }
    }

    /** `checkDBInit`, `checkConnInit` and `checkStmtInit`. */
    method CheckInit(kind: Kind, at: Option<nat>) returns (ok: bool)
      requires Valid()
      ensures ok <==> Allocated(State(), kind, at) && table[State().Field(Ref(kind, at.value))].Opened()
      ensures ok ==> State().Resolves(Ref(kind, at.value))
      ensures ok <==> Ready(State(), kind, at)
      ensures forall how :: Calling(State(), kind, at, how) ==
                            if !ok then Refused(InvalidState) else
                            if how.Panicked() then PANICKED else Refused(if how == Done then Ok else DriverError)
    {
      ok := CheckAlloc(kind, at);
      if ok {
        FieldsResolve(State());
        assert State().Resolves(Ref(kind, at.value));
        ok := table[PrivateData(Ref(kind, at.value))].Opened();
      }
    }

    method DatabaseNew(db: Option<nat>) returns (status: Status)
      requires Valid()
      modifies this
      ensures State() == Step(old(State()), HandleSpec.DatabaseNew(db)) && Valid()
      ensures status == Decide(old(State()), HandleSpec.DatabaseNew(db)).status
    {
      StepIsValid(HandleSpec.DatabaseNew(db));
      hide Rooted, Tracked;
      if poisoned {
        return Internal;
      }
      if db.None? {
        status := Poison();
        return;
      }
      if PrivateData(Ref(Database, db.value)) != NIL {
        return InvalidState;
      }
      NewHandle(Ref(Database, db.value), DatabaseObject(false));
      return Ok;
    }

    method DatabaseInit(db: Option<nat>, how: Outcome) returns (status: Status)
      requires Valid()
      modifies this
      ensures State() == Step(old(State()), HandleSpec.DatabaseInit(db, how)) && Valid()
      ensures status == Decide(old(State()), HandleSpec.DatabaseInit(db, how)).status
    {
      StepIsValid(HandleSpec.DatabaseInit(db, how));
      FieldsResolve(State());
      hide Rooted, Tracked;
      var usable := CheckAlloc(Database, db);
      if !usable {
        return InvalidState;
      }
      var r := Ref(Database, db.value);
      assert State().Resolves(r);
      var cdb := table[PrivateData(r)];
      if cdb.open {
        return InvalidState;
      }
      if how.Panicked() {
        status := Poison();
        return;
      }
      if how != Done {
        return DriverError;
      }
      SetObject(r, DatabaseObject(true));
      return Ok;
    }

    method DatabaseRelease(db: Option<nat>, how: Outcome) returns (status: Status)
      requires Valid()
      modifies this
      ensures State() == Step(old(State()), HandleSpec.DatabaseRelease(db, how)) && Valid()
      ensures status == Decide(old(State()), HandleSpec.DatabaseRelease(db, how)).status
      ensures !old(poisoned) && db.Some? && old(State()).Field(Ref(Database, db.value)) != NIL ==>
                Outcomes.GivenUp(old(State()), State(), Ref(Database, db.value))
    {
      StepIsValid(HandleSpec.DatabaseRelease(db, how));
      FieldsResolve(State());
      var usable := CheckAlloc(Database, db);
      if !usable {
        return InvalidState;
      }
      assert State().Resolves(Ref(Database, db.value));
      Outcomes.EmptiedIsGivenUp(State(), Ref(Database, db.value));
      var cdb := TakeHandle(Ref(Database, db.value));
      if cdb.open && how.Panicked() {
        status := Poison();
        return;
      }
      return Ok;
    }

    method ConnectionInit(conn: Option<nat>, db: Option<nat>, how: Outcome) returns (status: Status)
      requires Valid()
      modifies this
      ensures State() == Step(old(State()), HandleSpec.ConnectionInit(conn, db, how)) && Valid()
      ensures status == Decide(old(State()), HandleSpec.ConnectionInit(conn, db, how)).status
    {
      StepIsValid(HandleSpec.ConnectionInit(conn, db, how));
      hide Rooted, Tracked, Calling, Configuring, Ready;
      var usable := CheckAlloc(Connection, conn);
      if !usable {
        return InvalidState;
      }
      var r := Ref(Connection, conn.value);
      FieldsResolve(State());
      assert State().Resolves(r);
      if table[PrivateData(r)].open {
        return InvalidState;
      }
      usable := CheckInit(Database, db);
      if !usable {
        return InvalidState;
      }
      if how == Panics {
        status := Poison();
        return;
      }
      if how == Fails {
        return DriverError;
      }
      SetObject(r, ConnectionObject(true));
      if how == PanicsLate {
        status := Poison();
        return;
      }
      return if how == FailsLate then DriverError else Ok;
    }

    method StatementNew(conn: Option<nat>, stmt: Option<nat>, how: Outcome) returns (status: Status)
      requires Valid()
      modifies this
      ensures State() == Step(old(State()), HandleSpec.StatementNew(conn, stmt, how)) && Valid()
      ensures status == Decide(old(State()), HandleSpec.StatementNew(conn, stmt, how)).status
    {
      StepIsValid(HandleSpec.StatementNew(conn, stmt, how));
      hide Rooted, Tracked, Calling;
      if poisoned {
        return Internal;
      }
      if stmt.None? {
        status := Poison();
        return;
      }
      if PrivateData(Ref(Statement, stmt.value)) != NIL {
        return InvalidState;
      }
      var usable := CheckInit(Connection, conn);
      if !usable {
        return InvalidState;
      }
      if how.Panicked() {
        status := Poison();
        return;
      }
      if how != Done {
        return DriverError;
      }
      NewHandle(Ref(Statement, stmt.value), StatementObject);
      return Ok;
    }

    /** The connection and statement releases; a statement checks the poison flag before anything else. */
    method Release(kind: Guarded, at: Option<nat>, how: Outcome) returns (status: Status)
      requires Valid() && kind != Database
      modifies this
      ensures State() == Step(old(State()), ReleaseOp(kind, at, how)) && Valid()
      ensures status == Decide(old(State()), ReleaseOp(kind, at, how)).status
      ensures !old(poisoned) && at.Some? && old(State()).Field(Ref(kind, at.value)) != NIL ==>
                Outcomes.GivenUp(old(State()), State(), Ref(kind, at.value))
    {
      StepIsValid(ReleaseOp(kind, at, how));
      FieldsResolve(State());
      if kind == Statement && poisoned {
        return Internal;
      }
      var usable := CheckAlloc(kind, at);
      if !usable {
        return InvalidState;
      }
      assert State().Resolves(Ref(kind, at.value));
      Outcomes.EmptiedIsGivenUp(State(), Ref(kind, at.value));
      var o := TakeHandle(Ref(kind, at.value));
      if !o.Opened() {
        return Ok;
      }
      if how.Panicked() {
        status := Poison();
        return;
      }
      return if how == Done then Ok else DriverError;
    }

    /** A new reader is held by the call, then also by the stream, then by the stream alone. */
    method ExportResult(out: nat)
      modifies this
      ensures State() == Apply(old(State()), Fill(Ref(Stream, out), StreamObject(|old(refs)|)))
    {
      var rdr := |refs|;
      refs := refs + [1];
      ExportRecordReader(rdr, out);
      refs := refs[rdr := refs[rdr] - 1];
      assert refs == old(refs) + [1];
    }

    /**
    `GizmoSQLStatementExecuteQuery` with a stream, whatever the stream holds: an old handle in it is lost,
    not deleted.
    */
    method ExecuteQuery(stmt: Option<nat>, out: nat, how: Outcome) returns (status: Status)
      requires Valid()
      modifies this
      ensures State() == Step(old(State()), HandleSpec.Execute(stmt, out, how)) && Valid()
      ensures status == Decide(old(State()), HandleSpec.Execute(stmt, out, how)).status
      ensures old(Linked(State())) ==>
                (Linked(State()) <==> status != Ok || old(State()).Field(Ref(Stream, out)) == NIL)
    {
      StepIsValid(HandleSpec.Execute(stmt, out, how));
      if Linked(State()) {
        ExportKeepsLinkedExactly(State(), HandleSpec.Execute(stmt, out, how), out);
      }
      hide Linked, Ready;
      hide Rooted, Tracked, Calling, Configuring, HandleSpec.State.Field, HandleSpec.State.Resolves;
      var usable := CheckInit(Statement, stmt);
      if !usable {
        return InvalidState;
      }
      if how.Panicked() {
        status := Poison();
        return;
      }
      if how != Done {
        return DriverError;
      }
      ExportResult(out);
      return Ok;
    }

    /**
    The six calls on a connection that answer with a stream: GetInfo, GetObjects, GetStatistics,
    GetStatisticNames, GetTableTypes and ReadPartition.
    */
    method ReadConnection(conn: Option<nat>, into: Option<nat>, how: Outcome) returns (status: Status)
      requires Valid()
      modifies this
      ensures State() == Step(old(State()), HandleSpec.Read(conn, into, how)) && Valid()
      ensures status == Decide(old(State()), HandleSpec.Read(conn, into, how)).status
      ensures into.Some? && old(Linked(State())) ==>
                (Linked(State()) <==> status != Ok || old(State()).Field(Ref(Stream, into.value)) == NIL)
    {
      StepIsValid(HandleSpec.Read(conn, into, how));
      if into.Some? && Linked(State()) {
        ExportKeepsLinkedExactly(State(), HandleSpec.Read(conn, into, how), into.value);
      }
      hide Linked, Ready;
      hide Rooted, Tracked, Calling, Configuring, HandleSpec.State.Field, HandleSpec.State.Resolves;
      var usable := CheckInit(Connection, conn);
      if !usable {
        return InvalidState;
      }
      if how.Panicked() {
        status := Poison();
        return;
      }
      if how != Done {
        return DriverError;
      }
      if into.None? {
        status := Poison();
        return;
      }
      ExportResult(into.value);
      return Ok;
    }

    /** The part of `GizmoSQLArrayStreamRelease` that concerns the handle and the reader. */
    method StreamRelease(stream: Option<nat>)
      requires Valid()
      modifies this
      ensures State() == Step(old(State()), HandleSpec.StreamRelease(stream)) && Valid()
      ensures stream.Some? && old(State()).Field(Ref(Stream, stream.value)) != NIL ==>
                var s := old(State()); var r := Ref(Stream, stream.value);
                && Outcomes.GivenUp(s, State(), r) && s.Field(r) in s.table && s.table[s.Field(r)].StreamObject?
                && State().Count(s.table[s.Field(r)].reader) == 0
    {
      StepIsValid(HandleSpec.StreamRelease(stream));
      StreamsNeverCrash(State(), HandleSpec.StreamRelease(stream));
      FieldsResolve(State());
      if stream.None? || PrivateData(Ref(Stream, stream.value)) == NIL {
        return;
      }
      assert State().Resolves(Ref(Stream, stream.value));
      Outcomes.EmptiedIsGivenUp(State(), Ref(Stream, stream.value));
      var cStream := TakeHandle(Ref(Stream, stream.value));
      refs := refs[cStream.reader := refs[cStream.reader] - 1];
    }

    lemma StepIsValid(op: Op)
      requires Valid()
      ensures Rooted(Step(State(), op)) && Tracked(Step(State(), op))
    {
      StepKeepsRooted(State(), op);
    }
  }
}
