/**
What a caller of the C entry points gets: when a call succeeds, the handle it then holds, and that a release
gives up the handle, its struct and its reader, and nothing else.
*/
module HandleOutcomes {
  import opened Wrappers
  import opened HandleSpec
  import opened HandleRuns

  /** The struct holds a handle that stands for this object. */
  predicate Holds(s: State, kind: Kind, at: Option<nat>, o: Object) {
    at.Some? && var h := s.Field(Ref(kind, at.value)); h != NIL && h in s.table && s.table[h] == o
  }

  /** All structs and handles are as before, except that one struct and that one handle. */
  ghost predicate OthersStay(s: State, t: State, r: Ref, h: Handle) {
    && (forall q :: q != r ==> t.Field(q) == s.Field(q))
    && (forall g :: g != h ==> (g in t.table <==> g in s.table))
    && (forall g :: g != h && g in s.table ==> g in t.table && t.table[g] == s.table[g])
  }

  /** The struct is empty, its handle deleted, and nothing else touched. */
  ghost predicate GivenUp(s: State, t: State, r: Ref) {
    t.Field(r) == NIL && s.Field(r) !in t.table && OthersStay(s, t, r, s.Field(r))
  }

  /** The struct holds a handle that was not there before. */
  ghost predicate Given(s: State, t: State, r: Ref, o: Object) {
    Holds(t, r.kind, Some(r.at), o) && t.Field(r) !in s.table && OthersStay(s, t, r, t.Field(r))
  }

  /** Every state that any run reaches. */
  ghost predicate Reachable(s: State) {
    exists ops :: s == Run(Initial(), ops)
  }

  lemma ReachableIsRooted(s: State)
    requires Reachable(s)
    ensures Rooted(s) && Tracked(s)
  {
    var ops :| s == Run(Initial(), ops);
    InitiallyLinked();
    RunKeepsRooted(Initial(), ops);
  }

  /** What storing a new handle does, and what deleting one does. */
  lemma FilledIsGiven(s: State, r: Ref, o: Object)
    requires Rooted(s) && o.Kind() == r.kind
    ensures Given(s, Apply(s, Fill(r, o)), r, o)
    ensures o.StreamObject? && r.kind == Stream && o.reader == |s.refs| ==> ResultIn(s, Apply(s, Fill(r, o)), r.at)
  {
    assert s.next !in s.table;
  }

  lemma EmptiedIsGivenUp(s: State, r: Ref)
    requires Rooted(s) && s.Field(r) != NIL
    ensures GivenUp(s, Apply(s, Empty(r)), r)
    ensures r.kind != Stream ==> Apply(s, Empty(r)).refs == s.refs
  {
  }

  /** The poison flag is no part of it. */
  lemma PoisonAside(s: State, t: State, poisoned: bool, r: Ref, o: Object)
    ensures var u := t.(poisoned := poisoned);
            && (Given(s, t, r, o) ==> Given(s, u, r, o)) && (GivenUp(s, t, r) ==> GivenUp(s, u, r))
            && (ResultIn(s, t, r.at) ==> ResultIn(s, u, r.at))
  {
  }

  // ----- Releases -----

  /** The release of any stream that holds a result, also after a panic: the struct is empty, the handle and
      the one reference to the reader are gone, and every other struct, handle and reader is as before. */
  lemma StreamReleaseGivesUp(s: State, at: nat)
    requires Reachable(s) && s.Field(Ref(Stream, at)) != NIL
    ensures var t := Step(s, StreamRelease(Some(at))); var h := s.Field(Ref(Stream, at));
            && GivenUp(s, t, Ref(Stream, at)) && t.poisoned == s.poisoned
            && Decide(s, StreamRelease(Some(at))).status == Ok
            && h in s.table && s.table[h].StreamObject?
            && s.Count(s.table[h].reader) == 1 && t.Count(s.table[h].reader) == 0
            && (forall k :: k != s.table[h].reader ==> t.Count(k) == s.Count(k))
  {
    ReachableIsRooted(s);
    assert s.Resolves(Ref(Stream, at));
    StreamsNeverCrash(s, StreamRelease(Some(at)));
    hide Reachable;
  }

  function ReleaseOp(r: Ref, how: Outcome): Op {
    match r.kind
    case Database => DatabaseRelease(Some(r.at), how)
    case Connection => ConnectionRelease(Some(r.at), how)
    case Statement => StatementRelease(Some(r.at), how)
    case Stream => StreamRelease(Some(r.at))
  }

  /** The release of a database, connection or statement, whatever closing the object comes to: the struct and
      the handle are gone, and every other struct, handle and reader is as before. It fails exactly if an
      object that was opened is closed with an error (which a database has none of) or panics. */
  lemma ReleaseGivesUp(s: State, r: Ref, how: Outcome)
    requires Reachable(s) && !s.poisoned && s.Field(r) != NIL && r.kind != Stream
    ensures var t := Step(s, ReleaseOp(r, how));
            && GivenUp(s, t, r) && t.refs == s.refs && s.Field(r) in s.table
            && (t.poisoned <==> s.table[s.Field(r)].Opened() && how.Panicked())
            && (Decide(s, ReleaseOp(r, how)).status == Ok <==>
                !s.table[s.Field(r)].Opened() || how == Done || (r.kind == Database && !how.Panicked()))
  {
    ReachableIsRooted(s);
    assert s.Resolves(r);
    EmptiedIsGivenUp(s, r);
    var d := Decide(s, ReleaseOp(r, how));
    PoisonAside(s, Apply(s, Empty(r)), s.poisoned || d.poison, r, s.table[s.Field(r)]);
    hide Reachable, Rooted, Tracked, GivenUp, Apply;
  }

  /** A release of a struct that holds nothing changes nothing. */
  lemma ReleaseOfNothing(s: State, r: Ref, how: Outcome)
    requires s.Field(r) == NIL
    ensures Step(s, ReleaseOp(r, how)) == s
  {
  }

  function Releases(rs: seq<Ref>, hows: seq<Outcome>): seq<Op>
    requires |rs| == |hows|
  {
    if |rs| == 0 then [] else [ReleaseOp(rs[0], hows[0])] + Releases(rs[1..], hows[1..])
  }

  lemma ReleaseStep(s: State, r: Ref, how: Outcome)
    requires Rooted(s) && Tracked(s) && !s.poisoned && !how.Panicked()
    ensures var t := Step(s, ReleaseOp(r, how));
            && !t.poisoned && t.Field(r) == NIL
            && (forall q :: q != r ==> t.Field(q) == s.Field(q))
            && (forall h :: h in t.table <==> h in s.table && (s.Field(r) == NIL || h != s.Field(r)))
  {
    FieldsResolve(s);
    if s.Field(r) != NIL {
      assert s.Resolves(r);
      if r.kind == Stream {
        StreamsNeverCrash(s, StreamRelease(Some(r.at)));
      }
    } else {
      ReleaseOfNothing(s, r, how);
    }
    hide Rooted, Tracked;
  }

  /** What is left of the table once the structs in `rs` are released, in whatever order and however often. */
  lemma {:induction false} ReleasesTake(s: State, rs: seq<Ref>, hows: seq<Outcome>)
    requires Rooted(s) && Tracked(s) && !s.poisoned && |rs| == |hows|
    requires forall i :: 0 <= i < |hows| ==> !hows[i].Panicked()
    ensures var t := Run(s, Releases(rs, hows));
            && Rooted(t) && Tracked(t)
            && (forall r :: t.Field(r) == if r in rs then NIL else s.Field(r))
            && (forall h :: h in t.table <==> h in s.table && !(exists r :: r in rs && s.Field(r) == h && h != NIL))
    decreases |rs|
  {
    hide Rooted, Tracked, Step, ReleaseOp;
    if |rs| == 0 {
    } else {
      var r := rs[0];
      var next := Step(s, ReleaseOp(r, hows[0]));
      ReleaseStep(s, r, hows[0]);
      StepKeepsRooted(s, ReleaseOp(r, hows[0]));
      ReleasesTake(next, rs[1..], hows[1..]);
      var ops := Releases(rs, hows);
      assert ops[0] == ReleaseOp(r, hows[0]) && ops[1..] == Releases(rs[1..], hows[1..]);
      var t := Run(next, ops[1..]);
      assert Run(s, ops) == t;
      forall h ensures h in t.table <==> h in s.table && !(exists q :: q in rs && s.Field(q) == h && h != NIL) {
        TakenFirstOrLater(s, next, rs, h);
      }
    }
  }

  lemma TakenFirstOrLater(s: State, next: State, rs: seq<Ref>, h: Handle)
    requires |rs| > 0 && next.Field(rs[0]) == NIL && forall q :: q != rs[0] ==> next.Field(q) == s.Field(q)
    ensures (exists q :: q in rs && s.Field(q) == h && h != NIL) <==>
            (s.Field(rs[0]) == h && h != NIL) || (exists q :: q in rs[1..] && next.Field(q) == h && h != NIL)
  {
    if q :| q in rs && s.Field(q) == h && h != NIL {
      assert q != rs[0] ==> q in rs[1..] && next.Field(q) == h;
    }
    if q :| q in rs[1..] && next.Field(q) == h && h != NIL {
      assert q in rs && s.Field(q) == h;
    }
  }

  /** After any run without a panic, releasing every struct, in any order, leaves in the table exactly the
      handles that exports over live streams had lost already. */
  lemma ReleasingAllLeavesTheLost(s: State, rs: seq<Ref>, hows: seq<Outcome>)
    requires Reachable(s) && !s.poisoned && |rs| == |hows|
    requires forall i :: 0 <= i < |hows| ==> !hows[i].Panicked()
    requires forall r :: r in s.fields ==> r in rs
    ensures forall h :: h in Run(s, Releases(rs, hows)).table <==> h in s.table && !HasField(s, h)
  {
    ReachableIsRooted(s);
    ReleasesTake(s, rs, hows);
    hide Run, Releases, Reachable;
    forall h | h in s.table ensures HasField(s, h) <==> exists r :: r in rs && s.Field(r) == h && h != NIL {
      if HasField(s, h) {
        var r :| r in s.fields && s.fields[r] == h;
        assert r in rs && s.Field(r) == h;
      }
    }
  }

  /** So a caller that never exports over a live stream and releases all it has made leaves nothing behind: no
      handle, and no reference to any reader. */
  lemma ReleasingAllLeavesNothing(ops: seq<Op>, rs: seq<Ref>, hows: seq<Outcome>)
    requires Careful(Initial(), ops) && !Run(Initial(), ops).poisoned && |rs| == |hows|
    requires forall i :: 0 <= i < |hows| ==> !hows[i].Panicked()
    requires forall r :: r in Run(Initial(), ops).fields ==> r in rs
    ensures var t := Run(Run(Initial(), ops), Releases(rs, hows));
            t.table == map[] && forall k :: 0 <= k < |t.refs| ==> t.refs[k] == 0
  {
    var s := Run(Initial(), ops);
    InitiallyLinked();
    RunKeepsInvariants(Initial(), ops);
    assert Reachable(s);
    ReleasingAllLeavesTheLost(s, rs, hows);
    var t := Run(s, Releases(rs, hows));
    assert t.table == map[];
    ReleasesKeepCounted(s, rs, hows);
    forall k | 0 <= k < |t.refs| ensures t.refs[k] == 0 {
      assert !HasStream(t, k);
    }
  }

  lemma {:induction false} ReleasesKeepCounted(s: State, rs: seq<Ref>, hows: seq<Outcome>)
    requires Rooted(s) && Counted(s) && |rs| == |hows|
    ensures Counted(Run(s, Releases(rs, hows)))
    decreases |rs|
  {
    hide Rooted, Counted, Step, ReleaseOp;
    if |rs| == 0 {
    } else {
      CountedIsTracked(s);
      StepKeepsRooted(s, ReleaseOp(rs[0], hows[0]));
      StepKeepsCounted(s, ReleaseOp(rs[0], hows[0]));
      ReleasesKeepCounted(Step(s, ReleaseOp(rs[0], hows[0])), rs[1..], hows[1..]);
      var ops := Releases(rs, hows);
      assert ops[0] == ReleaseOp(rs[0], hows[0]) && ops[1..] == Releases(rs[1..], hows[1..]);
    }
  }

  lemma CountedIsTracked(s: State)
    requires Counted(s)
    ensures Tracked(s)
  {
  }

  // ----- What a successful call gives -----

  function NewOp(kind: Kind, at: Option<nat>): Op
    requires kind == Database || kind == Connection
  {
    if kind == Database then DatabaseNew(at) else ConnectionNew(at)
  }

  function NewObject(kind: Kind): Object {
    if kind == Database then DatabaseObject(false) else ConnectionObject(false)
  }

  /** A new database or connection struct succeeds exactly if it is zeroed and no panic happened before. */
  lemma NewGives(s: State, kind: Kind, at: Option<nat>)
    requires Reachable(s) && (kind == Database || kind == Connection)
    ensures var d := Decide(s, NewOp(kind, at));
            && (d.status == Ok <==> !s.poisoned && at.Some? && s.Field(Ref(kind, at.value)) == NIL)
            && (d.status == Ok ==> Given(s, Step(s, NewOp(kind, at)), Ref(kind, at.value), NewObject(kind)))
  {
    ReachableIsRooted(s);
    if at.Some? {
      var r := Ref(kind, at.value);
      FilledIsGiven(s, r, NewObject(kind));
      PoisonAside(s, Apply(s, Fill(r, NewObject(kind))), s.poisoned, r, NewObject(kind));
    }
    hide Reachable, Rooted, Tracked, Given, Apply;
  }

  /** Initializing opens the object behind the handle, which stays the same. */
  lemma DatabaseInitOpens(s: State, at: Option<nat>, how: Outcome)
    requires Reachable(s)
    ensures var op := DatabaseInit(at, how);
            && (Decide(s, op).status == Ok <==>
                !s.poisoned && Holds(s, Database, at, DatabaseObject(false)) && how == Done)
            && (Decide(s, op).status == Ok ==> Holds(Step(s, op), Database, at, DatabaseObject(true)))
            && Step(s, op).fields == s.fields
  {
    ReachableIsRooted(s);
    FieldsResolve(s);
    hide Reachable, Rooted, Tracked;
  }

  /** A connection needs an open database for that, and is open also when its options fail or panic after that. */
  lemma ConnectionInitOpens(s: State, at: Option<nat>, db: Option<nat>, how: Outcome)
    requires Reachable(s)
    ensures var op := ConnectionInit(at, db, how);
            && (Decide(s, op).status == Ok <==>
                && !s.poisoned && Holds(s, Connection, at, ConnectionObject(false))
                && Holds(s, Database, db, DatabaseObject(true)) && how == Done)
            && (Holds(Step(s, op), Connection, at, ConnectionObject(true)) <==>
                || Holds(s, Connection, at, ConnectionObject(true))
                || (&& !s.poisoned && Holds(s, Connection, at, ConnectionObject(false))
                    && Holds(s, Database, db, DatabaseObject(true)) && how in {Done, FailsLate, PanicsLate}))
            && Step(s, op).fields == s.fields
  {
    ReachableIsRooted(s);
    FieldsResolve(s);
    CallsOnOpen(s, Database, db, DatabaseObject(true), how);
    hide Reachable, Rooted, Tracked, Calling, Ready;
  }

  /** What the checks accept: an object that is open. */
  lemma CallsOnOpen(s: State, kind: Kind, at: Option<nat>, o: Object, how: Outcome)
    requires Rooted(s)
    requires o == match kind case Database => DatabaseObject(true) case Connection => ConnectionObject(true)
                             case Statement => StatementObject case Stream => o
    requires kind != Stream
    ensures Ready(s, kind, at) <==> !s.poisoned && Holds(s, kind, at, o)
    ensures Calling(s, kind, at, how).status == Ok <==> Ready(s, kind, at) && how == Done
    ensures Calling(s, kind, at, how).effect == Nothing
    ensures Calling(s, kind, at, how).status == Ok ==> !Calling(s, kind, at, how).poison
  {
    FieldsResolve(s);
    hide Rooted;
  }

  /** A new statement needs a zeroed struct and an open connection, and then holds a handle of its own. */
  lemma StatementNewGives(s: State, conn: Option<nat>, stmt: Option<nat>, how: Outcome)
    requires Reachable(s)
    ensures var op := StatementNew(conn, stmt, how);
            && (Decide(s, op).status == Ok <==>
                && !s.poisoned && stmt.Some? && s.Field(Ref(Statement, stmt.value)) == NIL
                && Holds(s, Connection, conn, ConnectionObject(true)) && how == Done)
            && (Decide(s, op).status == Ok ==> Given(s, Step(s, op), Ref(Statement, stmt.value), StatementObject))
            && (Decide(s, op).status != Ok ==> Step(s, op) == s.(poisoned := Step(s, op).poisoned))
  {
    ReachableIsRooted(s);
    CallsOnOpen(s, Connection, conn, ConnectionObject(true), how);
    if stmt.Some? {
      var r := Ref(Statement, stmt.value);
      FilledIsGiven(s, r, StatementObject);
      PoisonAside(s, Apply(s, Fill(r, StatementObject)), s.poisoned, r, StatementObject);
    }
    hide Reachable, Rooted, Tracked, Calling, Ready, Given, Holds;
  }

  /** A result: the stream holds a new handle, and it alone the new reader. */
  ghost predicate ResultIn(s: State, t: State, out: nat) {
    && Given(s, t, Ref(Stream, out), StreamObject(|s.refs|))
    && t.Count(|s.refs|) == 1 && forall k :: 0 <= k < |s.refs| ==> t.Count(k) == s.Count(k)
  }

  lemma ResultIsGiven(s: State, out: nat)
    requires Rooted(s)
    ensures ResultIn(s, Apply(s, Fill(Ref(Stream, out), StreamObject(|s.refs|))).(poisoned := s.poisoned), out)
  {
    FilledIsGiven(s, Ref(Stream, out), StreamObject(|s.refs|));
  }

  /** An execution succeeds exactly if the driver does, on a statement that was made, and the result is then in
      the stream. */
  lemma ExecutionGivesResult(s: State, at: Option<nat>, out: nat, how: Outcome)
    requires Reachable(s)
    ensures var op := Execute(at, out, how);
            && (Decide(s, op).status == Ok <==> !s.poisoned && Holds(s, Statement, at, StatementObject) && how == Done)
            && (Decide(s, op).status == Ok ==> ResultIn(s, Step(s, op), out))
  {
    ReachableIsRooted(s);
    CallsOnOpen(s, Statement, at, StatementObject, how);
    ResultIsGiven(s, out);
    hide Reachable, Rooted, Tracked, Calling, Ready, ResultIn, Holds;
  }

  /** The same for a call that answers with a stream, on a connection that was opened. */
  lemma ReadGivesResult(s: State, at: Option<nat>, out: nat, how: Outcome)
    requires Reachable(s)
    ensures var op := Read(at, Some(out), how);
            && (Decide(s, op).status == Ok <==>
                !s.poisoned && Holds(s, Connection, at, ConnectionObject(true)) && how == Done)
            && (Decide(s, op).status == Ok ==> ResultIn(s, Step(s, op), out))
  {
    ReachableIsRooted(s);
    CallsOnOpen(s, Connection, at, ConnectionObject(true), how);
    ResultIsGiven(s, out);
    hide Reachable, Rooted, Tracked, Calling, Ready, ResultIn, Holds;
  }

  /** And the stream can be read until it is released, whatever happened in between. */
  lemma StreamsCanBeRead(s: State, at: Option<nat>)
    requires Reachable(s)
    ensures Decide(s, StreamCall(at)).status == Ok <==> at.Some? && s.Field(Ref(Stream, at.value)) != NIL
    ensures Step(s, StreamCall(at)) == s
  {
    ReachableIsRooted(s);
    FieldsResolve(s);
    hide Reachable, Rooted, Tracked;
  }

  // ----- Panics -----

  /** The call gets as far as the Go driver. */
  predicate ReachesDriver(s: State, op: Op) {
    match op
    case DatabaseInit(db, _) => Holds(s, Database, db, DatabaseObject(false))
    case DatabaseRelease(db, _) => Holds(s, Database, db, DatabaseObject(true))
    case ConnectionInit(conn, db, _) =>
      Holds(s, Connection, conn, ConnectionObject(false)) && Holds(s, Database, db, DatabaseObject(true))
    case ConnectionRelease(conn, _) => Holds(s, Connection, conn, ConnectionObject(true))
    case StatementNew(conn, stmt, _) =>
      stmt.Some? && s.Field(Ref(Statement, stmt.value)) == NIL && Holds(s, Connection, conn, ConnectionObject(true))
    case StatementRelease(stmt, _) => Holds(s, Statement, stmt, StatementObject)
    case Execute(stmt, _, _) => Holds(s, Statement, stmt, StatementObject)
    case Read(conn, _, _) => Holds(s, Connection, conn, ConnectionObject(true))
    case Configure(kind, at, _) => at.Some? && s.Field(Ref(kind, at.value)) != NIL
    case Call(Database, at, _) => Holds(s, Database, at, DatabaseObject(true))
    case Call(Connection, at, _) => Holds(s, Connection, at, ConnectionObject(true))
    case Call(Statement, at, _) => Holds(s, Statement, at, StatementObject)
    case _ => false
  }

  /** It dereferences a NULL struct: one to be filled. */
  predicate FillsNull(s: State, op: Op) {
    match op
    case DatabaseNew(db) => db.None?
    case ConnectionNew(conn) => conn.None?
    case StatementNew(_, stmt, _) => stmt.None?
    case Read(_, into, how) => into.None? && how == Done && ReachesDriver(s, op)
    case _ => false
  }

  // ----- Statuses -----

  /** What succeeds without the driver: a struct is set up, or one is released whose object was never opened. */
  predicate Succeeds(s: State, op: Op) {
    match op
    case DatabaseNew(db) => db.Some? && s.Field(Ref(Database, db.value)) == NIL
    case ConnectionNew(conn) => conn.Some? && s.Field(Ref(Connection, conn.value)) == NIL
    case DatabaseRelease(db, _) => Holds(s, Database, db, DatabaseObject(false))
    case ConnectionRelease(conn, _) => Holds(s, Connection, conn, ConnectionObject(false))
    case _ => false
  }

  /** A step poisons the driver exactly if the driver panics in it, or it fills a NULL struct. */
  lemma PanicsPoisonExactly(s: State, op: Op)
    requires Reachable(s) && !s.poisoned
    ensures Step(s, op).poisoned <==> FillsNull(s, op) || (ReachesDriver(s, op) && op.how.Panicked())
  {
    ReachableIsRooted(s);
    if OnStream(op) {
      StreamsNeverCrash(s, op);
    } else {
      CallTells(s, op);
    }
    hide Reachable, Rooted, Tracked, Decide, Apply;
  }

  /** The status of every call on a database, connection or statement: Internal for a panic, the driver's own
      error where it was reached and failed, and InvalidState for whatever never got that far. */
  lemma StatusTells(s: State, op: Op)
    requires Reachable(s) && !s.poisoned && !OnStream(op)
    ensures var status := Decide(s, op).status;
            && (status == Internal <==> Step(s, op).poisoned)
            && (status == DriverError <==>
                ReachesDriver(s, op) && (op.how == Fails || op.how == FailsLate) && !op.DatabaseRelease?)
            && (status == InvalidState <==> !FillsNull(s, op) && !ReachesDriver(s, op) && !Succeeds(s, op))
            && status in {Ok, Internal, DriverError, InvalidState}
  {
    ReachableIsRooted(s);
    CallTells(s, op);
    hide Reachable, Rooted, Tracked, Decide, Apply;
  }

  lemma CallTells(s: State, op: Op)
    requires Rooted(s) && !s.poisoned && !OnStream(op)
    ensures Tells(s, op)
  {
    FieldsResolve(s);
    if op.ConnectionInit? || op.StatementNew? || op.Execute? || op.Read? {
      DerivedStatus(s, op);
    } else {
      OwnStatus(s, op);
    }
    hide Rooted, Tells;
  }

  ghost predicate Tells(s: State, op: Op)
    requires !OnStream(op)
  {
    var d := Decide(s, op);
    && (d.poison <==> FillsNull(s, op) || (ReachesDriver(s, op) && op.how.Panicked()))
    && (d.status == Internal <==> d.poison)
    && (d.status == DriverError <==>
        ReachesDriver(s, op) && (op.how == Fails || op.how == FailsLate) && !op.DatabaseRelease?)
    && (d.status == InvalidState <==> !FillsNull(s, op) && !ReachesDriver(s, op) && !Succeeds(s, op))
    && d.status in {Ok, Internal, DriverError, InvalidState}
  }

  lemma OwnStatus(s: State, op: Op)
    requires !s.poisoned && !OnStream(op) && forall r :: s.Field(r) != NIL ==> s.Resolves(r)
    requires !op.ConnectionInit? && !op.StatementNew? && !op.Execute? && !op.Read?
    ensures Tells(s, op)
  {
    hide InitConnection, NewStatement, Executing, Reading;
  }

  /** The status of a call that starts with a check. */
  lemma CallStatus(s: State, kind: Kind, at: Option<nat>, how: Outcome)
    requires Rooted(s)
    ensures var d := Calling(s, kind, at, how);
            d.status == if !Ready(s, kind, at) then InvalidState else if how.Panicked() then Internal
                        else if how == Done then Ok else DriverError
    ensures Calling(s, kind, at, how).poison <==> Ready(s, kind, at) && how.Panicked()
  {
    FieldsResolve(s);
    hide Rooted;
  }

  lemma DerivedStatus(s: State, op: Op)
    requires Rooted(s) && !s.poisoned && (op.ConnectionInit? || op.StatementNew? || op.Execute? || op.Read?)
    ensures Tells(s, op)
  {
    match op
    case ConnectionInit(conn, db, how) =>
      CallsOnOpen(s, Database, db, DatabaseObject(true), how);
      CallStatus(s, Database, db, how);
      FieldsResolve(s);
      hide Rooted, Calling, Ready;
    case StatementNew(conn, _, how) =>
      CallsOnOpen(s, Connection, conn, ConnectionObject(true), how);
      CallStatus(s, Connection, conn, how);
      hide Rooted, Calling, Ready, Holds;
    case Execute(stmt, _, how) =>
      CallsOnOpen(s, Statement, stmt, StatementObject, how);
      CallStatus(s, Statement, stmt, how);
      hide Rooted, Calling, Ready, Holds;
    case Read(conn, _, how) =>
      CallsOnOpen(s, Connection, conn, ConnectionObject(true), how);
      CallStatus(s, Connection, conn, how);
      hide Rooted, Calling, Ready, Holds;
  }
}
