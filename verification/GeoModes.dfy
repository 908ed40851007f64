/**
What each ingest mode does to the tables, said on the option texts of the ADBC standard (API revision 1.1.0,
"Bulk Data Ingestion"): which table changes, and that the rows already in it are kept, or replaced.
*/
module GeoModes {
  import opened Wrappers
  import opened Quoting
  import opened GeoCatalog

  /** The table the options name, and the one an insert by that name reaches. */
  function Asked(t: Target): TableRef {
    MadeRef(t.temporary, TargetParts(t))
  }

  function Reached(c: Catalog, t: Target): TableRef {
    Find(c, TargetParts(t))
  }

  /** The same when the table the options name is there or has been made. */
  function ReachedOnceMade(c: Catalog, t: Target, stored: Table): TableRef {
    if Asked(t) in c then Reached(c, t) else Reached(c[Asked(t) := stored], t)
  }

  /** The old rows, then the new ones with all their values. */
  predicate Grown(before: Table, after: Table, more: Table) {
    && after.cols == before.cols
    && |after.rows| == |before.rows| + |more.rows| && before.rows <= after.rows
    && forall k, i :: 0 <= k < |more.rows| && 0 <= i < |more.cols| ==>
         Get(after.rows[|before.rows| + k], more.cols[i].name) == Get(more.rows[k], more.cols[i].name)
  }

  /** What a successful ingest has done, by the text of its mode. */
  predicate StoredAsTold(c: Catalog, option: string, t: Target, stored: Table, after: Catalog) {
    var asked := Asked(t);
    if option == "adbc.ingest.mode.replace" then after == c[asked := stored]
    else if option == "adbc.ingest.mode.append" then
      var r := Reached(c, t);
      r in c && r in after && Grown(c[r], after[r], stored) && after - {r} == c - {r}
    else if option == "adbc.ingest.mode.create_append" then
      var r := ReachedOnceMade(c, t, stored);
      && r in after && after - {r, asked} == c - {r, asked} && asked in after
      && Grown(if r in c then c[r] else stored.(rows := []), after[r], stored)
      && (asked != r ==> after[asked] == if asked in c then c[asked] else stored.(rows := []))
    else asked !in c && after == c[asked := stored]
  }

  /** All columns of the data are in the table, with their types. */
  predicate Takes(c: Catalog, r: TableRef, stored: Table) {
    r in c && forall i :: 0 <= i < |stored.cols| ==> stored.cols[i] in c[r].cols
  }

  /** When the server can do it, by the text of the mode. */
  predicate Possible(c: Catalog, option: string, t: Target, stored: Table) {
    var asked := Asked(t);
    if option == "adbc.ingest.mode.replace" then true
    else if option == "adbc.ingest.mode.append" then Takes(c, Reached(c, t), stored)
    else if option == "adbc.ingest.mode.create_append" then
      var r := ReachedOnceMade(c, t, stored);
      r !in c || Takes(c, r, stored)
    else asked !in c
  }

  lemma AppendedIsGrown(t: Table, more: Table)
    requires forall i :: 0 <= i < |more.cols| ==> more.cols[i] in t.cols
    ensures Grown(t, Appended(t, more), more)
  {
    var after := Appended(t, more);
    forall k, i | 0 <= k < |more.rows| && 0 <= i < |more.cols|
      ensures Get(after.rows[|t.rows| + k], more.cols[i].name) == Get(more.rows[k], more.cols[i].name)
    {
      assert after.rows[|t.rows| + k] == Fitted(more.rows[k], t.cols);
      assert more.cols[i] in t.cols;
      var j :| 0 <= j < |t.cols| && t.cols[j] == more.cols[i];
      assert t.cols[j].name in Fitted(more.rows[k], t.cols);
    }
  }

  lemma AppendIsTold(c: Catalog, r: TableRef, stored: Table)
    ensures AppendTo(c, r, stored).Some? <==> Takes(c, r, stored)
    ensures var n := AppendTo(c, r, stored);
            n.Some? ==> r in n.value && Grown(c[r], n.value[r], stored) && n.value - {r} == c - {r}
                        && forall q :: q != r ==> (q in n.value <==> q in c) && (q in c ==> n.value[q] == c[q])
  {
    if Takes(c, r, stored) {
      AppendedIsGrown(c[r], stored);
    }
  }

  /** The option text decides as the standard says, the unset and the unknown one meaning create. */
  lemma ModesAsTold(c: Catalog, option: string, t: Target, stored: Table)
    ensures var m := Materialized(c, ModeOf(option), t, stored);
            && (m.Some? ==> StoredAsTold(c, option, t, stored, m.value))
            && (m.Some? <==> Possible(c, option, t, stored))
  {
    hide Appended, Grown;
    if option == "adbc.ingest.mode.append" {
      AppendIsTold(c, Reached(c, t), stored);
      hide AppendTo, Takes, Find, MadeRef;
    } else if option == "adbc.ingest.mode.create_append" {
      CreateAppendIsTold(c, t, stored);
      hide Materialized, Possible;
    }
  }

  lemma CreateAppendIsTold(c: Catalog, t: Target, stored: Table)
    ensures var m := Materialized(c, ModeOf("adbc.ingest.mode.create_append"), t, stored);
            && (m.Some? ==> StoredAsTold(c, "adbc.ingest.mode.create_append", t, stored, m.value))
            && (m.Some? <==> Possible(c, "adbc.ingest.mode.create_append", t, stored))
  {
    assert ModeOf("adbc.ingest.mode.create_append") == CreateAppend;
    var asked, parts := Asked(t), TargetParts(t);
    var d := WithTarget(c, CreateAppend, asked, stored);
    var r := Find(d, parts);
    AppendIsTold(d, r, stored);
    assert asked in c ==> d == c;
    assert Find(c[asked := stored], parts) == Find(c[asked := stored.(rows := [])], parts);
    assert r == ReachedOnceMade(c, t, stored);
    hide Appended, Grown, AppendTo;
    var m := AppendTo(d, r, stored);
    if m.Some? {
      assert m.value - {r, asked} == c - {r, asked};
    }
  }

  /** Every table is still there, with the rows it had. */
  predicate KeepsRows(before: Catalog, after: Catalog) {
    forall r :: r in before ==> r in after && after[r].cols == before[r].cols && before[r].rows <= after[r].rows
  }

  /** Only a replace ever takes rows away. */
  lemma OnlyReplaceLosesRows(c: Catalog, option: string, t: Target, stored: Table, after: Catalog)
    requires option != "adbc.ingest.mode.replace" && StoredAsTold(c, option, t, stored, after)
    ensures KeepsRows(c, after)
  {
    hide MadeRef, Find;
    var asked := Asked(t);
    if option == "adbc.ingest.mode.append" {
      OthersAreKept(c, after, {Reached(c, t)});
    } else if option == "adbc.ingest.mode.create_append" {
      OthersAreKept(c, after, {ReachedOnceMade(c, t, stored), asked});
    }
  }

  lemma OthersAreKept(before: Catalog, after: Catalog, but: set<TableRef>)
    requires after - but == before - but
    ensures forall r :: r in before && r !in but ==> r in after && after[r] == before[r]
  {
    forall r | r in before && r !in but ensures r in after && after[r] == before[r] {
      assert r in before - but && (before - but)[r] == before[r];
      assert r in after - but && (after - but)[r] == after[r];
    }
  }
}
