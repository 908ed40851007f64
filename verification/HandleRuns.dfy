/**
What every run of the C entry points keeps: handles and non-nil `private_data` fields are in bijection,
nothing is deleted twice, a reader is held once by its stream and by nobody after that, and poison is
final.
*/
module HandleRuns {
  import opened Wrappers
  import opened HandleSpec

  /** Every non-nil field holds a live handle of the struct's kind, and no two structs share one. */
  ghost predicate Rooted(s: State) {
    && s.next > NIL
    && (forall h :: h in s.table ==> NIL < h < s.next)
    && (forall r :: r in s.fields && s.fields[r] != NIL ==> s.Resolves(r))
    && (forall r, q :: r in s.fields && q in s.fields && r != q && s.fields[r] != NIL ==> s.fields[r] != s.fields[q])
  }

  /** Live handles and non-nil fields are in bijection. */
  ghost predicate Linked(s: State) {
    Rooted(s) && forall h :: h in s.table ==> HasField(s, h)
  }

  ghost predicate HasField(s: State, h: Handle) {
    exists r :: r in s.fields && s.fields[r] == h
  }

  /** A live stream handle holds its reader once, and shares it with no other. */
  ghost predicate Tracked(s: State) {
    && (forall h :: h in s.table && s.table[h].StreamObject? ==> s.Count(s.table[h].reader) == 1)
    && (forall h, g :: h in s.table && g in s.table && h != g && s.table[h].StreamObject? ==> s.table[h] != s.table[g])
  }

  /** An exported reader is held once while its stream lives, and not at all afterwards. */
  ghost predicate Counted(s: State) {
    Tracked(s) && forall k :: 0 <= k < |s.refs| && s.refs[k] != 0 ==> HasStream(s, k)
  }

  ghost predicate HasStream(s: State, k: nat) {
    exists h :: h in s.table && s.table[h] == StreamObject(k)
  }

  /** What a decision may contain when handles and fields are in bijection. */
  ghost predicate Sound(s: State, e: Effect) {
    match e
    case Nothing => true
    case Fill(r, o) =>
      && o.Kind() == r.kind
      && (r.kind != Stream ==> s.Field(r) == NIL)
      && (o.StreamObject? ==> o.reader == |s.refs|)
    case Empty(r) => s.Field(r) != NIL
    case Clear(r) => false
    case Open(r, o) => s.Field(r) != NIL && o.Kind() == r.kind && r.kind != Stream
  }

  lemma DecisionsAreSound(s: State, op: Op)
    requires Rooted(s)
    ensures Sound(s, Decide(s, op).effect)
  {
    FieldsResolve(s);
    hide Rooted, State.Resolves, State.Field;
    match op
    case ConnectionInit(conn, db, how) => InitConnectionIsSound(s, conn, db, how);
    case StatementNew(conn, stmt, how) => NewStatementIsSound(s, conn, stmt, how);
    case Execute(stmt, out, how) => ExecutingIsSound(s, stmt, out, how);
    case Read(conn, out, how) => ReadingIsSound(s, conn, out, how);
    case _ => hide InitConnection, NewStatement, Executing, Reading, Calling;
  }

  lemma InitConnectionIsSound(s: State, conn: Option<nat>, db: Option<nat>, how: Outcome)
    ensures Sound(s, InitConnection(s, conn, db, how).effect)
  {
    hide State.Resolves, State.Field;
  }

  lemma NewStatementIsSound(s: State, conn: Option<nat>, stmt: Option<nat>, how: Outcome)
    ensures Sound(s, NewStatement(s, conn, stmt, how).effect)
  {
    hide State.Resolves, State.Field;
  }

  lemma ExecutingIsSound(s: State, stmt: Option<nat>, out: nat, how: Outcome)
    ensures Sound(s, Executing(s, stmt, out, how).effect)
  {
    hide State.Resolves, State.Field;
  }

  lemma ReadingIsSound(s: State, conn: Option<nat>, out: Option<nat>, how: Outcome)
    ensures Sound(s, Reading(s, conn, out, how).effect)
  {
    hide State.Resolves, State.Field;
  }

  lemma FieldsResolve(s: State)
    requires Rooted(s)
    ensures forall r :: s.Field(r) != NIL ==> s.Resolves(r)
  {
    hide State.Resolves;
  }

  // ----- What every step keeps, whatever the caller passes -----

  lemma FillKeepsRooted(s: State, r: Ref, o: Object)
    requires Rooted(s) && o.Kind() == r.kind
    ensures Rooted(Apply(s, Fill(r, o)))
  {
    var t := Apply(s, Fill(r, o));
    forall q | q in t.fields && t.fields[q] != NIL ensures t.Resolves(q) {
      if q != r {
        assert s.Resolves(q);
      }
    }
  }

  lemma EmptyKeepsRooted(s: State, r: Ref)
    requires Rooted(s) && s.Field(r) != NIL
    ensures Rooted(Apply(s, Empty(r)))
  {
    var t := Apply(s, Empty(r));
    forall q | q in t.fields && t.fields[q] != NIL ensures t.Resolves(q) {
      assert q != r && s.Resolves(q);
    }
  }

  lemma OpenKeepsRooted(s: State, r: Ref, o: Object)
    requires Rooted(s) && s.Field(r) != NIL && o.Kind() == r.kind
    ensures Rooted(Apply(s, Open(r, o)))
  {
    var t := Apply(s, Open(r, o));
    assert s.Resolves(r);
    forall q | q in t.fields && t.fields[q] != NIL ensures t.Resolves(q) {
      assert s.Resolves(q);
    }
  }

  lemma FillKeepsTracked(s: State, r: Ref, o: Object)
    requires Rooted(s) && Tracked(s) && (o.StreamObject? ==> o.reader == |s.refs|)
    ensures Tracked(Apply(s, Fill(r, o)))
  {
    var t := Apply(s, Fill(r, o));
    assert s.next !in s.table;
    forall h, g | h in t.table && g in t.table && h != g && t.table[h].StreamObject? ensures t.table[h] != t.table[g] {
      if h != s.next {
        assert s.Count(s.table[h].reader) == 1;
      }
      if g != s.next && s.table[g].StreamObject? {
        assert s.Count(s.table[g].reader) == 1;
      }
    }
  }

  lemma EmptyKeepsTracked(s: State, r: Ref)
    requires Rooted(s) && Tracked(s) && s.Field(r) != NIL
    ensures Tracked(Apply(s, Empty(r)))
  {
    var t := Apply(s, Empty(r));
    assert s.Resolves(r);
    hide Rooted;
    forall h | h in t.table && t.table[h].StreamObject? ensures t.Count(t.table[h].reader) == 1 {
      assert s.table[h] == t.table[h] && s.table[h] != s.table[s.Field(r)];
    }
  }

  lemma OpenKeepsTracked(s: State, r: Ref, o: Object)
    requires Rooted(s) && Tracked(s) && s.Field(r) != NIL && o.Kind() == r.kind && r.kind != Stream
    ensures Tracked(Apply(s, Open(r, o)))
  {
    assert s.Resolves(r);
  }

  lemma StepKeepsRooted(s: State, op: Op)
    requires Rooted(s) && Tracked(s)
    ensures Rooted(Step(s, op)) && Tracked(Step(s, op))
  {
    hide Rooted, Tracked, Decide, Apply;
    DecisionsAreSound(s, op);
    var d := Decide(s, op);
    PoisonKeepsInvariants(Apply(s, d.effect), s.poisoned || d.poison);
    match d.effect
    case Nothing => NothingChangesNothing(s);
    case Fill(r, o) => FillKeepsRooted(s, r, o); FillKeepsTracked(s, r, o);
    case Empty(r) => EmptyKeepsRooted(s, r); EmptyKeepsTracked(s, r);
    case Open(r, o) => OpenKeepsRooted(s, r, o); OpenKeepsTracked(s, r, o);
  }

  lemma {:induction false} RunKeepsRooted(s: State, ops: seq<Op>)
    requires Rooted(s) && Tracked(s)
    ensures Rooted(Run(s, ops)) && Tracked(Run(s, ops))
    decreases |ops|
  {
    hide Rooted, Tracked, Step;
    if |ops| == 0 {
    } else {
      StepKeepsRooted(s, ops[0]);
      RunKeepsRooted(Step(s, ops[0]), ops[1..]);
    }
  }

  /**
  After any run at all, streams exported over live ones included, the next call deletes only a handle that
  is live, no stream callback crashes, and only a panic of the driver itself or a NULL struct poisons.
  */
  lemma NothingIsDeletedTwice(ops: seq<Op>, op: Op)
    ensures var s := Run(Initial(), ops); var d := Decide(s, op);
            && d.status != Crash && !d.effect.Clear?
            && (d.effect.Empty? ==> s.Field(d.effect.r) in s.table)
            && (d.poison ==> NullStruct(op) || Panicking(op))
  {
    InitiallyLinked();
    RunKeepsRooted(Initial(), ops);
    var s := Run(Initial(), ops);
    hide Run, Initial;
    FieldsResolve(s);
    DecisionsAreSound(s, op);
    if OnStream(op) {
      StreamsNeverCrash(s, op);
    } else {
      hide Rooted;
      OnlyPanicsPoison(s, op);
    }
    hide Decide;
    if Decide(s, op).effect.Empty? {
      assert s.Resolves(Decide(s, op).effect.r);
    }
  }

  /** And a handle that has left the table, or its number, never comes back. */
  lemma DeletedHandlesStayDeleted(ops: seq<Op>, more: seq<Op>, h: Handle)
    requires var s := Run(Initial(), ops); h < s.next && h !in s.table
    ensures h !in Run(Run(Initial(), ops), more).table
  {
    InitiallyLinked();
    RunKeepsRooted(Initial(), ops);
    OldHandlesStayAway(Run(Initial(), ops), more, h);
  }

  lemma {:induction false} OldHandlesStayAway(s: State, ops: seq<Op>, h: Handle)
    requires Rooted(s) && Tracked(s) && h < s.next && h !in s.table
    ensures h !in Run(s, ops).table
    decreases |ops|
  {
    hide Rooted, Tracked, Step;
    if |ops| == 0 {
    } else {
      StepKeepsRooted(s, ops[0]);
      OldHandleStaysAway(s, ops[0], h);
      OldHandlesStayAway(Step(s, ops[0]), ops[1..], h);
    }
  }

  lemma OldHandleStaysAway(s: State, op: Op, h: Handle)
    requires Rooted(s) && h < s.next && h !in s.table
    ensures h < Step(s, op).next && h !in Step(s, op).table
  {
    hide Decide;
    DecisionsAreSound(s, op);
    match Decide(s, op).effect
    case Open(r, o) => assert s.Resolves(r);
    case _ =>
  }

  // ----- The bijection -----

  /** The stream a step exports a reader into: an execution, or a call on a connection, that succeeds. */
  function ExportedTo(s: State, op: Op): Option<nat> {
    match op
    case Execute(stmt, out, how) => if how == Done && Ready(s, Statement, stmt) then Some(out) else None
    case Read(conn, out, how) => if how == Done && Ready(s, Connection, conn) then out else None
    case _ => None
  }

  /** The only step that loses a handle: a call exports its result into a stream that still holds one. */
  predicate OverwritesStream(s: State, op: Op) {
    ExportedTo(s, op).Some? && s.Field(Ref(Stream, ExportedTo(s, op).value)) != NIL
  }

  /** Storing a new handle keeps the bijection exactly when the field was nil: the old handle would be lost. */
  lemma FillKeepsLinkedExactly(s: State, r: Ref, o: Object)
    requires Linked(s) && o.Kind() == r.kind
    ensures Linked(Apply(s, Fill(r, o))) <==> s.Field(r) == NIL
  {
    FillKeepsRooted(s, r, o);
    var t := Apply(s, Fill(r, o));
    assert t.fields[r] == s.next;
    if s.Field(r) == NIL {
      forall h | h in t.table ensures HasField(t, h) {
        if h != s.next {
          var q :| q in s.fields && s.fields[q] == h;
          assert q != r && t.fields[q] == h;
        }
      }
    } else {
      var lost := s.fields[r];
      assert s.Resolves(r) && lost in t.table;
      assert !HasField(t, lost) by {
        forall q | q in t.fields ensures t.fields[q] != lost {
        }
      }
    }
  }

  lemma EmptyKeepsLinked(s: State, r: Ref)
    requires Linked(s) && s.Field(r) != NIL
    ensures Linked(Apply(s, Empty(r)))
  {
    EmptyKeepsRooted(s, r);
    var t := Apply(s, Empty(r));
    forall h | h in t.table ensures HasField(t, h) {
      var q :| q in s.fields && s.fields[q] == h;
      assert q != r && t.fields[q] == h;
    }
  }

  lemma OpenKeepsLinked(s: State, r: Ref, o: Object)
    requires Linked(s) && s.Field(r) != NIL && o.Kind() == r.kind
    ensures Linked(Apply(s, Open(r, o)))
  {
    OpenKeepsRooted(s, r, o);
    var t := Apply(s, Open(r, o));
    assert s.Resolves(r);
    forall h | h in t.table ensures HasField(t, h) {
      var q :| q in s.fields && s.fields[q] == h;
      assert t.fields[q] == h;
    }
  }

  lemma PoisonKeepsInvariants(s: State, poisoned: bool)
    ensures var t := s.(poisoned := poisoned);
            && (Rooted(t) <==> Rooted(s)) && (Linked(t) <==> Linked(s))
            && (Tracked(t) <==> Tracked(s)) && (Counted(t) <==> Counted(s))
  {
    var t := s.(poisoned := poisoned);
    forall h ensures HasField(t, h) <==> HasField(s, h) {
    }
    forall k ensures HasStream(t, k) <==> HasStream(s, k) {
    }
    forall r ensures t.Resolves(r) <==> s.Resolves(r) {
    }
  }

  /** A step keeps the bijection exactly when it does not export over a live stream. */
  lemma StepKeepsLinkedExactly(s: State, op: Op)
    requires Linked(s)
    ensures Linked(Step(s, op)) <==> !OverwritesStream(s, op)
  {
    FillsStreamsOnlyByExport(s, op);
    DecisionsAreSound(s, op);
    hide Linked, Rooted, Decide, Apply, State.Resolves, ExportedTo;
    var d := Decide(s, op);
    PoisonKeepsInvariants(Apply(s, d.effect), s.poisoned || d.poison);
    match d.effect
    case Nothing => NothingChangesNothing(s);
    case Fill(r, o) => FillKeepsLinkedExactly(s, r, o);
    case Empty(r) => EmptyKeepsLinked(s, r);
    case Open(r, o) => OpenKeepsLinked(s, r, o);
  }

  /** Seen from a call that exports: it keeps the bijection exactly when it fails or the stream is empty. */
  lemma ExportKeepsLinkedExactly(s: State, op: Op, out: nat)
    requires Linked(s) && ((op.Execute? && op.out == out) || (op.Read? && op.into == Some(out)))
    ensures Linked(Step(s, op)) <==> Decide(s, op).status != Ok || s.Field(Ref(Stream, out)) == NIL
  {
    StepKeepsLinkedExactly(s, op);
    FillsStreamsOnlyByExport(s, op);
    hide Linked, Step, Decide, Ready, State.Field;
  }

  /** Two reads into one stream, on a connection opened in the usual way, lose the handle of the first. */
  lemma LosingAHandleIsReachable(at: nat)
    ensures var s := Run(Initial(), Opening(at)); var read := Read(Some(at), Some(at), Done);
            var t := Step(s, read);
            && Linked(t) && OverwritesStream(t, read)
            && 3 in Step(t, read).table && !HasField(Step(t, read), 3)
  {
    var s, read := Opened(at), Read(Some(at), Some(at), Done);
    OpeningRuns(at);
    OpenedIsLinked(at);
    StepKeepsLinkedExactly(s, read);
    ReadsWhenOpened(at, s);
    ReadsWhenOpened(at, Step(s, read));
    hide Step, Linked, Run;
  }

  /** What reading does on that connection, whatever the stream holds. */
  lemma ReadsWhenOpened(at: nat, s: State)
    requires !s.poisoned && s.Field(Ref(Connection, at)) == 2 && 2 in s.table && s.table[2] == ConnectionObject(true)
    ensures var t := Step(s, Read(Some(at), Some(at), Done));
            && t.fields == s.fields[Ref(Stream, at) := s.next] && t.table == s.table[s.next := StreamObject(|s.refs|)]
            && t.next == s.next + 1 && !t.poisoned
    ensures ExportedTo(s, Read(Some(at), Some(at), Done)) == Some(at)
  {
  }

  function Opening(at: nat): seq<Op> {
    [DatabaseNew(Some(at)), DatabaseInit(Some(at), Done),
     ConnectionNew(Some(at)), ConnectionInit(Some(at), Some(at), Done)]
  }

  /** The state after the four calls that open a connection. */
  function Opened(at: nat): State {
    State(false, map[Ref(Database, at) := 1, Ref(Connection, at) := 2],
          map[1 := DatabaseObject(true), 2 := ConnectionObject(true)], 3, [])
  }

  lemma OpeningRuns(at: nat)
    ensures Run(Initial(), Opening(at)) == Opened(at)
  {
    var ops := Opening(at);
    var a := Step(Initial(), ops[0]);
    assert a == State(false, map[Ref(Database, at) := 1], map[1 := DatabaseObject(false)], 2, []);
    var b := Step(a, ops[1]);
    assert b == a.(table := map[1 := DatabaseObject(true)]);
    var c := Step(b, ops[2]);
    assert c == State(false, Opened(at).fields, map[1 := DatabaseObject(true), 2 := ConnectionObject(false)], 3, []);
    var d := Step(c, ops[3]);
    assert d == Opened(at);
    FourSteps(Initial(), ops);
    hide Step;
  }

  lemma FourSteps(s: State, ops: seq<Op>)
    requires |ops| == 4
    ensures Run(s, ops) == Step(Step(Step(Step(s, ops[0]), ops[1]), ops[2]), ops[3])
  {
    hide Step;
    var a := Step(s, ops[0]);
    var b := Step(a, ops[1]);
    var c := Step(b, ops[2]);
    assert Run(c, ops[3..]) == Run(Step(c, ops[3]), ops[3..][1..]);
    assert ops[1..][1..] == ops[2..] && ops[2..][1..] == ops[3..] && ops[3..][1..] == [];
    assert Run(b, ops[2..]) == Run(c, ops[3..]);
    assert Run(a, ops[1..]) == Run(b, ops[2..]);
  }

  lemma OpenedIsLinked(at: nat)
    ensures Linked(Opened(at))
  {
    var s := Opened(at);
    assert s.fields[Ref(Database, at)] == 1 && s.fields[Ref(Connection, at)] == 2;
    assert HasField(s, 1) && HasField(s, 2);
  }

  lemma NothingChangesNothing(s: State)
    ensures Apply(s, Nothing) == s
  {
  }

  lemma FillsStreamsOnlyByExport(s: State, op: Op)
    ensures var d := Decide(s, op);
            d.effect.Fill? && d.effect.r.kind == Stream <==> ExportedTo(s, op).Some?
    ensures ExportedTo(s, op).Some? ==> Decide(s, op).effect.r == Ref(Stream, ExportedTo(s, op).value)
    ensures op.Execute? || (op.Read? && op.into.Some?) ==> (ExportedTo(s, op).Some? <==> Decide(s, op).status == Ok)
  {
    hide State.Resolves, State.Field;
    match op
    case DatabaseRelease(_, _) => hide Calling, Configuring;
    case ConnectionInit(_, _, _) =>
    case _ => hide Releasing, InitConnection, InitDatabase;
  }

  // ----- Reference counts -----

  lemma FillKeepsCounted(s: State, r: Ref, o: Object)
    requires Rooted(s) && Counted(s) && (o.StreamObject? ==> o.reader == |s.refs|)
    ensures Counted(Apply(s, Fill(r, o)))
  {
    FillKeepsTracked(s, r, o);
    var t := Apply(s, Fill(r, o));
    assert s.next !in s.table;
    forall k | 0 <= k < |t.refs| && t.refs[k] != 0 ensures HasStream(t, k) {
      if k < |s.refs| {
        assert HasStream(s, k);
        var h :| h in s.table && s.table[h] == StreamObject(k);
        assert t.table[h] == StreamObject(k);
      } else {
        assert t.table[s.next] == StreamObject(k);
      }
    }
  }

  lemma EmptyKeepsCounted(s: State, r: Ref)
    requires Rooted(s) && Counted(s) && s.Field(r) != NIL
    ensures Counted(Apply(s, Empty(r)))
  {
    EmptyKeepsTracked(s, r);
    var t := Apply(s, Empty(r));
    var gone := s.Field(r);
    assert s.Resolves(r);
    hide Rooted;
    forall k | 0 <= k < |t.refs| && t.refs[k] != 0 ensures HasStream(t, k) {
      assert HasStream(s, k);
      var h :| h in s.table && s.table[h] == StreamObject(k);
      assert h != gone;
      assert t.table[h] == StreamObject(k);
    }
  }

  lemma OpenKeepsCounted(s: State, r: Ref, o: Object)
    requires Rooted(s) && Counted(s) && s.Field(r) != NIL && o.Kind() == r.kind && r.kind != Stream
    ensures Counted(Apply(s, Open(r, o)))
  {
    OpenKeepsTracked(s, r, o);
    var t := Apply(s, Open(r, o));
    assert s.Resolves(r);
    forall k | 0 <= k < |t.refs| && t.refs[k] != 0 ensures HasStream(t, k) {
      assert HasStream(s, k);
      var h :| h in s.table && s.table[h] == StreamObject(k);
      assert t.table[h] == StreamObject(k);
    }
  }

  lemma StepKeepsCounted(s: State, op: Op)
    requires Rooted(s) && Counted(s)
    ensures Counted(Step(s, op))
  {
    hide Rooted, Counted, Decide, Apply;
    DecisionsAreSound(s, op);
    var d := Decide(s, op);
    PoisonKeepsInvariants(Apply(s, d.effect), s.poisoned || d.poison);
    match d.effect
    case Nothing => NothingChangesNothing(s);
    case Fill(r, o) => FillKeepsCounted(s, r, o);
    case Empty(r) => EmptyKeepsCounted(s, r);
    case Open(r, o) => OpenKeepsCounted(s, r, o);
  }

  /** The caller's side of the contract: a result goes into a stream that holds none. */
  ghost predicate Careful(s: State, ops: seq<Op>)
    decreases |ops|
  {
    |ops| == 0 || (!OverwritesStream(s, ops[0]) && Careful(Step(s, ops[0]), ops[1..]))
  }

  lemma {:induction false} RunKeepsInvariants(s: State, ops: seq<Op>)
    requires Linked(s) && Counted(s) && Careful(s, ops)
    ensures Linked(Run(s, ops)) && Counted(Run(s, ops))
    decreases |ops|
  {
    hide HasField, Rooted, Counted, Step;
    if |ops| == 0 {
    } else {
      StepKeepsLinkedExactly(s, ops[0]);
      StepKeepsCounted(s, ops[0]);
      RunKeepsInvariants(Step(s, ops[0]), ops[1..]);
    }
  }

  lemma InitiallyLinked()
    ensures Linked(Initial()) && Counted(Initial())
  {
  }

  /**
  The main statement. After any run that exports into empty streams: the live handles are exactly the
  values of the non-nil fields, no two structs share one, every handle is of its struct's kind, and a
  reader is held once if some stream struct still refers to it and not at all otherwise.
  */
  lemma HandlesMatchStructs(ops: seq<Op>)
    requires Careful(Initial(), ops)
    ensures var s := Run(Initial(), ops);
            && (forall r :: s.Field(r) != NIL ==> s.Resolves(r))
            && (forall r, q :: s.Field(r) != NIL && r != q ==> s.Field(r) != s.Field(q))
            && (forall h :: h in s.table ==> HasField(s, h))
            && (forall k :: 0 <= k < |s.refs| ==> s.refs[k] == if HeldByStruct(s, k) then 1 else 0)
  {
    InitiallyLinked();
    RunKeepsInvariants(Initial(), ops);
    var s := Run(Initial(), ops);
    hide Run, Initial, Careful;
    FieldsResolve(s);
    forall r, q | s.Field(r) != NIL && r != q ensures s.Field(r) != s.Field(q) {
    }
    forall k | 0 <= k < |s.refs| ensures s.refs[k] == if HeldByStruct(s, k) then 1 else 0 {
      HeldExactlyByStreams(s, k);
    }
  }

  /** Some stream struct's `private_data` stands for reader `k`. */
  ghost predicate HeldByStruct(s: State, k: nat) {
    exists r :: r in s.fields && s.fields[r] in s.table && s.table[s.fields[r]] == StreamObject(k)
  }

  lemma HeldExactlyByStreams(s: State, k: nat)
    requires Linked(s) && Counted(s) && k < |s.refs|
    ensures s.refs[k] == if HeldByStruct(s, k) then 1 else 0
  {
    if HeldByStruct(s, k) {
      var r :| r in s.fields && s.fields[r] in s.table && s.table[s.fields[r]] == StreamObject(k);
      assert s.Count(s.table[s.fields[r]].reader) == 1;
    }
    if s.refs[k] != 0 {
      assert HasStream(s, k);
      var h :| h in s.table && s.table[h] == StreamObject(k);
      assert HasField(s, h);
      var r :| r in s.fields && s.fields[r] == h;
      assert s.table[s.fields[r]] == StreamObject(k);
    }
  }

  predicate NullStruct(op: Op) {
    || (op.DatabaseNew? && op.db.None?) || (op.ConnectionNew? && op.conn.None?)
    || (op.StatementNew? && op.stmt.None?) || (op.Read? && op.into.None?)
  }

  predicate Panicking(op: Op) {
    !op.DatabaseNew? && !op.ConnectionNew? && !OnStream(op) && op.how.Panicked()
  }

  lemma StreamsNeverCrash(s: State, op: Op)
    requires Rooted(s) && Tracked(s) && OnStream(op)
    ensures Decide(s, op).status != Crash && !Decide(s, op).effect.Clear? && !Decide(s, op).poison
  {
    FieldsResolve(s);
    if op.stream.Some? && s.Field(Ref(Stream, op.stream.value)) != NIL {
      var r := Ref(Stream, op.stream.value);
      assert s.Resolves(r) && s.Count(s.table[s.Field(r)].reader) == 1;
    }
  }

  lemma OnlyPanicsPoison(s: State, op: Op)
    requires !OnStream(op) && forall r :: s.Field(r) != NIL ==> s.Resolves(r)
    ensures Decide(s, op).status != Crash && !Decide(s, op).effect.Clear?
    ensures Decide(s, op).poison ==> NullStruct(op) || Panicking(op)
  {
    hide State.Resolves, State.Field;
  }

  predicate OnStream(op: Op) {
    op.StreamCall? || op.StreamRelease?
  }

  /** Poison is final, and every guarded entry point then fails and changes nothing at all. */
  lemma PoisonedCallsFail(s: State, op: Op)
    requires s.poisoned
    ensures Step(s, op).poisoned
    ensures !OnStream(op) ==> Step(s, op) == s && Decide(s, op).status in {InvalidState, Internal}
    ensures forall r: Ref :: r.kind != Stream ==> Step(s, op).Field(r) == s.Field(r)
  {
  }

  /** Whatever is called after a panic, no database, connection or statement handle is made or deleted. */
  lemma {:induction false} PoisonFreezesHandles(s: State, ops: seq<Op>)
    requires s.poisoned
    ensures Run(s, ops).poisoned
    ensures forall r: Ref :: r.kind != Stream ==> Run(s, ops).Field(r) == s.Field(r)
    ensures (forall op :: op in ops ==> !OnStream(op)) ==> Run(s, ops) == s
    decreases |ops|
  {
    hide Step, State.Field;
    if |ops| == 0 {
    } else {
      PoisonedCallsFail(s, ops[0]);
      PoisonFreezesHandles(Step(s, ops[0]), ops[1..]);
      assert forall op :: op in ops[1..] ==> op in ops;
    }
  }
}
