/**
The statement object of go/gizmosql/driver.go and optionsdelegate.go: the same fields, updated in
place, over an inner statement object that it may replace. Each method is proved against
`StatementSpec.Step`.
*/
module Statements {
  import opened Wrappers
  import Inner
  import Spec = StatementSpec

  /** The connection hands out inner statements and knows which are open. */
  class Connection {
    var open: set<Inner.Statement>

    constructor ()
      ensures open == {}
    {
      open := {};
    }

    method NewStatement(fails: bool) returns (st: Option<Inner.Statement>)
      modifies this`open
      ensures st.None? <==> fails
      ensures fails ==> open == old(open)
      ensures !fails ==> fresh(st.value) && st.value.state == Inner.FRESH && open == old(open) + {st.value}
    {
      if fails {
        return None;
      }
      var s := new Inner.Statement();
      open := open + {s};
      st := Some(s);
    }

    method CloseStatement(s: Inner.Statement)
      modifies this`open, s
      ensures open == old(open) - {s} && s.state == old(s.state).(open := false)
    {
      s.Close();
      open := open - {s};
    }
  }

  class Statement {
    var inner: Inner.Statement
    const cnxn: Connection
    var query: string
    var hasBound: bool
    var prepared: bool
    var setOpts: seq<Inner.Setting>
    var ingest: Spec.Ingest
    var boundSchema: Option<Inner.Schema>

    ghost predicate Valid()
      reads this, cnxn, inner
    {
      inner in cnxn.open && inner.state.open
    }

    /** The fields as one value. */
    function Abs(): Spec.Wrapper
      reads this, inner
    {
      Spec.Wrapper(inner.state, query, hasBound, prepared, setOpts, ingest, boundSchema)
    }

    constructor (cnxn: Connection, inner: Inner.Statement)
      requires inner in cnxn.open && inner.state == Inner.FRESH
      ensures Valid() && Abs() == Spec.NEW && this.cnxn == cnxn && this.inner == inner
    {
      this.cnxn, this.inner := cnxn, inner;
      query, hasBound, prepared, setOpts, ingest, boundSchema := "", false, false, [], Spec.NO_INGEST, None;
    }

    /** The wrapper owns exactly one open inner statement: whichever it holds now stands in the
        connection for the one it held before, and no other is left open. */
    twostate predicate OwnsOne()
      reads this, cnxn, inner
    {
      && Valid()
      && cnxn.open == old(cnxn.open) - {old(inner)} + {inner}
      && (inner == old(inner) || fresh(inner))
    }

    method RecordOption(key: string, value: Inner.OptionValue)
      modifies this`setOpts
      ensures setOpts == Spec.Record(old(setOpts), key, value)
    {
      if Inner.IsIngestKey(key) {
        return;
      }
      setOpts := setOpts + [Inner.Setting(key, value)];
    }

    method ResetForNewQuery(f: Spec.Faults) returns (ok: bool)
      requires Valid()
      modifies this, inner, cnxn`open
      ensures Spec.Outcome(Abs(), ok) == Spec.Reset(old(Abs()), f)
      ensures OwnsOne() && (inner != old(inner) <==> Spec.Swaps(old(Abs()), f))
    {
      if !hasBound {
        return true;
      }
      var st := cnxn.NewStatement(f.newStatement);
      if st.None? {
        return false;
      }
      var anew := st.value;
      for i := 0 to |setOpts|
        invariant unchanged(this) && unchanged(inner)
        invariant !Spec.ReplayFails(setOpts, f) || i <= f.replay.value
        invariant anew.state == Inner.Replay(Inner.FRESH, setOpts[..i])
        invariant cnxn.open == old(cnxn.open) + {anew}
      {
        var fails := f.replay.Some? && f.replay.value == i;
        var ok' := anew.SetOption(setOpts[i].key, setOpts[i].value, fails);
        if !ok' {
          cnxn.CloseStatement(anew);
          assert cnxn.open == old(cnxn.open);
          return false;
        }
        assert setOpts[..i + 1][..i] == setOpts[..i];
      }
      assert setOpts[..|setOpts|] == setOpts;
      ReplayKeepsOpen(Inner.FRESH, setOpts);
      var old' := inner;
      inner := anew;
      hasBound := false;
      prepared := false;
      boundSchema := None;
      cnxn.CloseStatement(old');
      return !f.closeOld;
    }

    method SetOption(key: string, value: string, f: Spec.Faults) returns (ok: bool)
      requires Valid()
      modifies this, inner
      ensures Spec.Outcome(Abs(), ok) == Spec.Step(old(Abs()), Spec.SetOption(key, value), f)
      ensures Valid() && inner == old(inner)
    {
      ok := inner.SetOption(key, Inner.Text(value), f.call);
      if !ok {
        return;
      }
      RecordOption(key, Inner.Text(value));
      if key == Inner.TARGET_TABLE {
        ingest := ingest.(target := value);
      } else if key == Inner.MODE {
        ingest := ingest.(mode := value);
      } else if key == Inner.CATALOG {
        ingest := ingest.(catalog := value);
      } else if key == Inner.DB_SCHEMA {
        ingest := ingest.(dbSchema := value);
      } else if key == Inner.TEMPORARY {
        ingest := ingest.(temp := value == Inner.ENABLED);
      }
    }

    /** `SetOptionBytes`, `SetOptionInt` and `SetOptionDouble`. */
    method SetTypedOption(key: string, value: Inner.OptionValue, f: Spec.Faults) returns (ok: bool)
      requires Valid() && !value.Text?
      modifies this, inner
      ensures Spec.Outcome(Abs(), ok) == Spec.Step(old(Abs()), Spec.SetTyped(key, value), f)
      ensures Valid() && inner == old(inner)
    {
      ok := inner.SetOption(key, value, f.call);
      if ok {
        RecordOption(key, value);
      }
    }

    method SetSqlQuery(text: string, f: Spec.Faults) returns (ok: bool)
      requires Valid()
      modifies this, inner, cnxn`open
      ensures Spec.Outcome(Abs(), ok) == Spec.Step(old(Abs()), Spec.SetSqlQuery(text), f)
      ensures OwnsOne()
    {
      ok := ResetForNewQuery(f);
      if !ok {
        return;
      }
      ok := inner.SetSqlQuery(text, f.call);
      if !ok {
        return;
      }
      query := text;
      prepared := false;
      ingest := ingest.(target := "");
    }

    method SetSubstraitPlan(plan: seq<bv8>, f: Spec.Faults) returns (ok: bool)
      requires Valid()
      modifies this, inner, cnxn`open
      ensures Spec.Outcome(Abs(), ok) == Spec.Step(old(Abs()), Spec.SetSubstraitPlan(plan), f)
      ensures OwnsOne()
    {
      ok := ResetForNewQuery(f);
      if !ok {
        return;
      }
      ok := inner.SetSubstraitPlan(plan, f.call);
      if !ok {
        return;
      }
      query := "";
      prepared := false;
    }

    method Prepare(fails: bool) returns (ok: bool)
      requires Valid()
      modifies this`prepared, inner
      ensures Spec.Outcome(Abs(), ok) == Spec.Prepared(old(Abs()), fails)
      ensures Valid()
    {
      ok := inner.PrepareQuery(fails);
      if ok {
        prepared := true;
      }
    }

    method AutoPrepare(f: Spec.Faults) returns (ok: bool)
      requires Valid()
      modifies this`prepared, inner
      ensures Spec.Outcome(Abs(), ok) == Spec.AutoPrepared(old(Abs()), f.prepare)
      ensures Valid()
    {
      if query == "" || ingest.target != "" || prepared {
        return true;
      }
      ok := Prepare(f.prepare);
    }

    /** `Bind` and `BindStream`. */
    method Bind(rows: Inner.Rows, f: Spec.Faults) returns (ok: bool)
      requires Valid()
      modifies this, inner
      ensures Spec.Outcome(Abs(), ok) == Spec.Step(old(Abs()), Spec.Bind(rows), f)
      ensures ok ==> hasBound && boundSchema == Some(rows.schema)
      ensures Valid() && inner == old(inner)
    {
      ok := AutoPrepare(f);
      if !ok {
        return;
      }
      ok := inner.BindRows(rows, f.call);
      if !ok {
        return;
      }
      hasBound := true;
      boundSchema := Some(rows.schema);
    }

    /** The start of `executeGeoIngest`, if the bound schema calls for it: the inner statement's ingest is
        turned to the interim table, one option after the other, and nothing is recorded. */
    method RedirectIngest(interim: string, done: nat) returns (ok: bool)
      requires Valid()
      modifies inner
      ensures Spec.Outcome(Abs(), ok) == Spec.Step(old(Abs()), Spec.GeoRedirect(interim, done), Spec.NO_FAULTS)
      ensures Valid()
    {
      var geoCols := GeoFieldNames(boundSchema);
      if ingest.target == "" || geoCols == [] {
        return false;
      }
      var opts := Spec.RedirectOptions(interim);
      ReplayKeepsOpen(inner.state, opts);
      for i := 0 to |opts|
        invariant inner.state == Inner.Replay(old(inner.state), opts[..i]) && i <= done
      {
        ReplayKeepsOpen(old(inner.state), opts[..i + 1]);
        assert opts[..i + 1][..i] == opts[..i];
        ok := inner.SetOption(opts[i].key, opts[i].value, i == done);
        if !ok {
          ReplayKeepsOpen(old(inner.state), opts[..i]);
          return false;
        }
      }
      assert opts[..|opts|] == opts;
      return true;
    }

    /** Closing the wrapper leaves the connection without any statement of its own. */
    method CloseInner()
      requires Valid()
      modifies inner, cnxn`open
      ensures cnxn.open == old(cnxn.open) - {inner} && !inner.state.open
    {
      cnxn.CloseStatement(inner);
    }
  }

  /** `geoFieldNames`. */
  method GeoFieldNames(schema: Option<Inner.Schema>) returns (names: seq<string>)
    ensures names == Spec.GeoFieldNames(schema)
  {
    if schema.None? {
      return [];
    }
    var fields := schema.value;
    names := [];
    hide Spec.IsGeo;
    for i := 0 to |fields|
      invariant Spec.GeoNames(fields) == names + Spec.GeoNames(fields[i..])
    {
      assert fields[i..][0] == fields[i] && fields[i..][1..] == fields[i + 1..];
      if Spec.IsGeo(fields[i]) {
        names := names + [fields[i].name];
      }
    }
  }

  lemma {:induction false} ReplayKeepsOpen(s: Inner.State, opts: seq<Inner.Setting>)
    ensures Inner.Replay(s, opts).open == s.open
  {
    if opts == [] {
    } else {
      ReplayKeepsOpen(s, opts[..|opts| - 1]);
    }
  }
}
