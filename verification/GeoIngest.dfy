/**
`executeGeoIngest` of go/gizmosql/geoingest.go: a bulk ingest into a session-temporary interim table, the
conversion of the columns that landed as BLOB, the statements of the mode, and the drop. Every request
can fail.
*/
module GeoIngest {
  import opened Wrappers
  import opened Quoting
  import opened SqlLexer
  import opened SqlLimits
  import opened GeoCatalog
  import opened GeoModes
  import W = StatementSpec

  // ----- Names of BLOB columns -----

  predicate NoDuplicates(names: seq<string>) {
    forall i, j :: 0 <= i < j < |names| ==> names[i] != names[j]
  }

  function Members(names: seq<string>): set<string> {
    set n | n in names
  }

  function BlobNames(cols: seq<Column>): seq<string> {
    if |cols| == 0 then [] else (if cols[0].typ == BlobType then [cols[0].name] else []) + BlobNames(cols[1..])
  }

  lemma {:induction false} BlobNamesExactly(cols: seq<Column>, n: string)
    ensures n in BlobNames(cols) <==> IsBlob(cols, n)
  {
    if |cols| == 0 {
    } else {
      BlobNamesExactly(cols[1..], n);
      if IsBlob(cols, n) && cols[0] != Column(n, BlobType) {
        var i :| 0 <= i < |cols| && cols[i] == Column(n, BlobType);
        assert cols[1..][i - 1] == Column(n, BlobType);
      }
      if IsBlob(cols[1..], n) {
        var i :| 0 <= i < |cols[1..]| && cols[1..][i] == Column(n, BlobType);
        assert cols[i + 1] == Column(n, BlobType);
      }
    }
  }

  lemma {:induction false} BlobNamesOnce(cols: seq<Column>)
    requires Distinct(cols)
    ensures NoDuplicates(BlobNames(cols))
  {
    if |cols| == 0 {
    } else {
      BlobNamesOnce(cols[1..]);
      BlobNamesExactly(cols[1..], cols[0].name);
      forall i | 0 <= i < |cols[1..]| ensures cols[1..][i].name != cols[0].name {
        assert cols[1..][i] == cols[i + 1];
      }
    }
  }

  /** The same names in some other order. */
  ghost predicate Reorders(order: seq<string> -> seq<string>) {
    forall s :: (forall n :: n in s <==> n in order(s)) && (NoDuplicates(s) ==> NoDuplicates(order(s)))
  }

  // ----- Which data can be ingested -----

  predicate ReadableColumn(t: Table, n: string, readable: Bytes -> bool) {
    forall i :: 0 <= i < |t.rows| ==> Readable(Get(t.rows[i], n), readable)
  }

  predicate AllReadable(data: Data, names: set<string>, readable: Bytes -> bool) {
    forall n :: n in names && n in GeoNameSet(data) && IsBlob(Raw(data).cols, n) ==>
      ReadableColumn(Raw(data), n, readable)
  }

  /** Column names differ, and every value of a binary geo column is NULL or well-formed WKB. */
  predicate Acceptable(data: Data, readable: Bytes -> bool) {
    Distinct(Raw(data).cols) && AllReadable(data, GeoNameSet(data), readable)
  }

  /** What the bulk ingest itself needs, when it turns the columns in `direct` into geometry. */
  predicate Loadable(data: Data, direct: set<string>, readable: Bytes -> bool) {
    Distinct(Raw(data).cols) && AllReadable(data, direct, readable)
  }

  function LastPart(r: TableRef): string {
    match r
    case Temp(n) => n
    case Named(parts) => if parts == [] then "" else parts[|parts| - 1]
  }

  /** No table of any catalog or schema has this name. */
  ghost predicate Unused(c: Catalog, name: string) {
    forall r :: r in c ==> LastPart(r) != name
  }

  // ----- The statements of a mode -----

  function Statements(mode: Mode, t: Target, interim: string): seq<Sql> {
    var target, source := JoinQuoted(TargetParts(t)), QuoteIdent(interim);
    match mode
    case Replace => [CreateAs(OrReplace, t.temporary, target, source, false)]
    case Append => [InsertByName(target, source)]
    case CreateAppend => [CreateAs(IfNotExists, t.temporary, target, source, true), InsertByName(target, source)]
    case Create => [CreateAs(Plainly, t.temporary, target, source, false)]
  }

  function Also(c: Option<Catalog>, interim: string, t: Table): Option<Catalog> {
    if c.None? then None else Some(c.value[Temp(interim) := t])
  }

  lemma NameReadsBack(name: string)
    ensures ReadParts(QuoteIdent(name)) == Some([name])
  {
    TargetReadsBack([name]);
    assert JoinQuoted([name]) == QuoteIdent(name);
  }

  lemma CreateRuns(base: Catalog, how: Creation, temporary: bool, target: string, parts: seq<string>,
                   source: string, interim: string, stored: Table, empty: bool, readable: Bytes -> bool)
    requires ReadParts(target) == Some(parts) && ReadParts(source) == Some([interim]) && parts != [interim]
    ensures Exec(base[Temp(interim) := stored], CreateAs(how, temporary, target, source, empty), readable)
            == Also(MakeFrom(base, how, MadeRef(temporary, parts), if empty then stored.(rows := []) else stored),
                    interim, stored)
  {
    hide ReadParts, ConvertColumns, CanConvert, AppendTo;
    var from := if empty then stored.(rows := []) else stored;
    var made := MadeRef(temporary, parts);
    assert made != Temp(interim);
    var c := base[Temp(interim) := stored];
    assert Find(c, [interim]) == Temp(interim);
    assert c[made := from] == base[made := from][Temp(interim) := stored];
  }

  lemma InsertRuns(base: Catalog, target: string, parts: seq<string>, source: string, interim: string, stored: Table,
                   readable: Bytes -> bool)
    requires ReadParts(target) == Some(parts) && ReadParts(source) == Some([interim]) && parts != [interim]
    ensures Exec(base[Temp(interim) := stored], InsertByName(target, source), readable)
            == Also(AppendTo(base, Find(base, parts), stored), interim, stored)
  {
    hide ReadParts, ConvertColumns, CanConvert, Appended, Insertable, MakeFrom;
    var c := base[Temp(interim) := stored];
    assert Find(c, [interim]) == Temp(interim);
    var r := Find(base, parts);
    assert Find(c, parts) == r && r != Temp(interim);
    if r in base {
      var more := Appended(base[r], stored);
      assert c[r := more] == base[r := more][Temp(interim) := stored];
    }
  }

  /** Where a mode that failed may have left the catalog: untouched, or with the empty table it had to make. */
  ghost predicate LeftBy(c: Catalog, mode: Mode, t: Target, stored: Table, after: Catalog) {
    var made := MadeRef(t.temporary, TargetParts(t));
    after == c || (mode == CreateAppend && made !in c && after == c[made := stored.(rows := [])])
  }

  datatype Request = Request(sql: Sql, ok: bool)

  /** The last statement before the drop was an insert, and failed. */
  predicate InsertFailed(trail: seq<Request>) {
    |trail| >= 2 && !trail[|trail| - 2].ok && trail[|trail| - 2].sql.InsertByName?
  }

  /** The GizmoSQL session as the ingest sees it. Request `k` never reaches the server when `fails(k)`. */
  class Session {
    const fails: nat -> bool
    const readable: Bytes -> bool                  // what ST_GeomFromWKB can read
    const direct: set<string>                      // the geo columns this server lands as GEOMETRY by itself
    const order: seq<string> -> seq<string>        // the order in which it lists columns
    var catalog: Catalog
    var sent: nat
    var trail: seq<Request>                        // the SQL statements among the requests, with their outcome

    constructor (fails: nat -> bool, readable: Bytes -> bool, direct: set<string>, order: seq<string> -> seq<string>,
                 catalog: Catalog)
      ensures this.fails == fails && this.readable == readable && this.direct == direct && this.order == order
      ensures this.catalog == catalog && sent == 0 && trail == []
    {
      this.fails, this.readable, this.direct, this.order := fails, readable, direct, order;
      this.catalog, sent, trail := catalog, 0, [];
    }

    /** The delegated ingest, in mode replace, temporary and unqualified. */
    method BulkIngest(data: Data, table: string) returns (count: Option<nat>)
      modifies this`sent, this`catalog
      ensures sent == old(sent) + 1
      ensures count.Some? <==> !fails(old(sent)) && Loadable(data, direct, readable)
      ensures count.Some? ==> count.value == |data.rows| && catalog == old(catalog)[Temp(table) := Landed(data, direct)]
      ensures count.None? ==> catalog == old(catalog)
    {
      sent := sent + 1;
      if fails(sent - 1) || !Loadable(data, direct, readable) {
        return None;
      }
      catalog := catalog[Temp(table) := Landed(data, direct)];
      return Some(|data.rows|);
    }

    /** `execSQL`: a statement that fails, for whatever reason, changes nothing. */
    method ExecSql(sql: Sql) returns (ok: bool)
      modifies this
      ensures sent == old(sent) + 1
      ensures ok <==> !fails(old(sent)) && Exec(old(catalog), sql, readable).Some?
      ensures catalog == if ok then Exec(old(catalog), sql, readable).value else old(catalog)
      ensures trail == old(trail) + [Request(sql, ok)]
    {
      ok := false;
      if !fails(sent) {
        match Exec(catalog, sql, readable) {
          case None =>
          case Some(c) => catalog, ok := c, true;
        }
      }
      sent := sent + 1;
      trail := trail + [Request(sql, ok)];
    }

    /**
    The query over duckdb_columns() for a table that no other table shares its name with; the name
    travels as a string literal.
    */
    method QueryBlobColumns(literal: string) returns (names: Option<seq<string>>)
      requires literal != "" && ReadQuoted('\'', literal[1..]).Some?
      requires Temp(ReadQuoted('\'', literal[1..]).value.text) in catalog
      modifies this`sent
      ensures sent == old(sent) + 1 && (names.Some? <==> !fails(old(sent)))
      ensures names.Some? ==>
                names.value == order(BlobNames(catalog[Temp(ReadQuoted('\'', literal[1..]).value.text)].cols))
    {
      sent := sent + 1;
      if fails(sent - 1) {
        return None;
      }
      return Some(order(BlobNames(catalog[Temp(ReadQuoted('\'', literal[1..]).value.text)].cols)));
    }
  }

  /** `blobTypedColumns`: the wanted columns whose type is BLOB, in the server's order. */
  method BlobTypedColumns(s: Session, table: string, wanted: seq<string>) returns (out: Option<seq<string>>)
    requires Temp(table) in s.catalog && Reorders(s.order) && Distinct(s.catalog[Temp(table)].cols)
    modifies s`sent
    ensures s.sent == old(s.sent) + 1 && (out.Some? <==> !s.fails(old(s.sent)))
    ensures out.Some? ==> NoDuplicates(out.value)
    ensures out.Some? ==> forall n :: n in out.value <==> n in wanted && IsBlob(s.catalog[Temp(table)].cols, n)
  {
    ReadQuotedWhole('\'', table, "");
    assert QuoteLiteral(table)[1..] == Doubled('\'', table) + ['\''] + "";
    hide Doubled, Quoted, ReadQuoted, IsBlob, BlobNames;
    var listed := s.QueryBlobColumns(QuoteLiteral(table));
    if listed.None? {
      return None;
    }
    var names := listed.value;
    ghost var cols := s.catalog[Temp(table)].cols;
    BlobNamesOnce(cols);
    forall n ensures n in names <==> IsBlob(cols, n) {
      BlobNamesExactly(cols, n);
    }
    var want := Members(wanted);
    var found: seq<string> := [];
    for i := 0 to |names|
      invariant NoDuplicates(found)
      invariant forall n :: n in found <==> n in names[..i] && n in wanted
    {
      assert names[..i + 1] == names[..i] + [names[i]];
      if names[i] in want {
        assert names[i] !in names[..i];
        found := found + [names[i]];
      }
    }
    assert names[..|names|] == names;
    return Some(found);
  }

  ghost predicate NoFaults(fails: nat -> bool) {
    forall k :: !fails(k)
  }

  lemma ConversionRuns(base: Catalog, interim: string, landed: Table, a: set<string>, n: string,
                       readable: Bytes -> bool)
    requires Distinct(landed.cols) && IsBlob(landed.cols, n) && n !in a
    ensures Exec(base[Temp(interim) := ConvertColumns(landed, a)], ToGeometry(QuoteIdent(interim), QuoteIdent(n)),
                 readable)
            == if ReadableColumn(landed, n, readable)
               then Some(base[Temp(interim) := ConvertColumns(landed, a + {n})]) else None
  {
    NameReadsBack(interim);
    NameReadsBack(n);
    hide ReadParts, QuoteIdent;
    IsBlobAfter(landed, a, n);
    ConvertUnion(landed, a, {n});
    var t := ConvertColumns(landed, a);
    assert CanConvert(t, n, readable) <==> ReadableColumn(landed, n, readable) by {
      forall i | 0 <= i < |landed.rows| ensures Get(t.rows[i], n) == Get(landed.rows[i], n) {
      }
    }
    hide ConvertColumns, CanConvert, IsBlob, Distinct, ReadableColumn;
    var c := base[Temp(interim) := t];
    assert Find(c, [interim]) == Temp(interim);
    assert c[Temp(interim) := ConvertColumns(t, {n})] == base[Temp(interim) := ConvertColumns(t, {n})];
  }

  /** The ALTER loop of `executeGeoIngest`: the order of the columns does not show in the result. */
  method RestoreGeometry(s: Session, interim: string, blobCols: seq<string>, ghost base: Catalog, ghost landed: Table)
    returns (ok: bool)
    requires s.catalog == base[Temp(interim) := landed] && Temp(interim) !in base
    requires Distinct(landed.cols) && NoDuplicates(blobCols) && forall n :: n in blobCols ==> IsBlob(landed.cols, n)
    modifies s
    ensures Temp(interim) in s.catalog && s.catalog - {Temp(interim)} == base && s.sent >= old(s.sent)
    ensures ok ==> s.catalog == base[Temp(interim) := ConvertColumns(landed, Members(blobCols))]
    ensures NoFaults(s.fails) ==> (ok <==> forall n :: n in blobCols ==> ReadableColumn(landed, n, s.readable))
  {
    ConvertNothing(landed, {});
    assert Members(blobCols[..0]) == {};
    hide ConvertColumns, IsBlob, Distinct, ReadableColumn;
    for i := 0 to |blobCols|
      invariant s.catalog == base[Temp(interim) := ConvertColumns(landed, Members(blobCols[..i]))]
      invariant s.sent >= old(s.sent)
      invariant NoFaults(s.fails) ==> forall n :: n in blobCols[..i] ==> ReadableColumn(landed, n, s.readable)
    {
      hide QuoteIdent, Exec;
      ghost var before := Members(blobCols[..i]);
      assert blobCols[..i + 1] == blobCols[..i] + [blobCols[i]];
      assert Members(blobCols[..i + 1]) == before + {blobCols[i]};
      ConversionRuns(base, interim, landed, before, blobCols[i], s.readable);
      ok := s.ExecSql(ToGeometry(QuoteIdent(interim), QuoteIdent(blobCols[i])));
      if !ok {
        return false;
      }
    }
    assert blobCols[..|blobCols|] == blobCols;
    return true;
  }

  lemma StatementsRun(base: Catalog, mode: Mode, t: Target, interim: string, stored: Table, readable: Bytes -> bool)
    requires t.table != interim
    ensures var stmts := Statements(mode, t, interim);
            var done := Also(Materialized(base, mode, t, stored), interim, stored);
            var made := MadeRef(t.temporary, TargetParts(t));
            var first := Exec(base[Temp(interim) := stored], stmts[0], readable);
            && (mode == CreateAppend <==> |stmts| == 2)
            && (mode == CreateAppend ==> !stmts[0].InsertByName? && stmts[1].InsertByName?)
            && (mode != CreateAppend ==> |stmts| == 1 && first == done)
            && (mode == CreateAppend ==>
                  && first == Some(WithTarget(base, CreateAppend, made, stored)[Temp(interim) := stored])
                  && Exec(first.value, stmts[1], readable) == done)
  {
    var parts := TargetParts(t);
    var target, source := JoinQuoted(parts), QuoteIdent(interim);
    TargetReadsBack(parts);
    NameReadsBack(interim);
    hide JoinQuoted, QuoteIdent, ReadParts, Exec, AppendTo, TargetParts;
    match mode
    case Replace => CreateRuns(base, OrReplace, t.temporary, target, parts, source, interim, stored, false, readable);
    case Create => CreateRuns(base, Plainly, t.temporary, target, parts, source, interim, stored, false, readable);
    case Append => InsertRuns(base, target, parts, source, interim, stored, readable);
    case CreateAppend =>
      CreateRuns(base, IfNotExists, t.temporary, target, parts, source, interim, stored, true, readable);
      var made := MadeRef(t.temporary, parts);
      InsertRuns(WithTarget(base, CreateAppend, made, stored), target, parts, source, interim, stored, readable);
  }

  lemma MaterializedElsewhere(base: Catalog, mode: Mode, t: Target, interim: string, stored: Table)
    requires Temp(interim) !in base && t.table != interim
    ensures var m := Materialized(base, mode, t, stored); m.Some? ==> Temp(interim) !in m.value
    ensures MadeRef(t.temporary, TargetParts(t)) != Temp(interim)
  {
    hide Insertable, Appended;
  }

  lemma WithoutInterim(c: Catalog, interim: string, t: Table)
    requires Temp(interim) !in c
    ensures c[Temp(interim) := t] - {Temp(interim)} == c
  {
  }

  /** The statements of the mode, one after the other until one fails. */
  method Materialize(s: Session, mode: Mode, t: Target, interim: string, ghost base: Catalog, ghost stored: Table)
    returns (ok: bool)
    requires s.catalog == base[Temp(interim) := stored] && Temp(interim) !in base && t.table != interim
    modifies s
    ensures Temp(interim) in s.catalog && s.sent >= old(s.sent)
    ensures ok ==> Materialized(base, mode, t, stored) == Some(s.catalog - {Temp(interim)})
    ensures !ok ==> LeftBy(base, mode, t, stored, s.catalog - {Temp(interim)})
    ensures !ok ==> s.trail != [] && !s.trail[|s.trail| - 1].ok
    ensures !ok ==>
              (s.catalog - {Temp(interim)} != base <==>
               && mode == CreateAppend && MadeRef(t.temporary, TargetParts(t)) !in base
               && s.trail[|s.trail| - 1].sql.InsertByName?)
    ensures NoFaults(s.fails) ==> (ok <==> Materialized(base, mode, t, stored).Some?)
  {
    var stmts := Statements(mode, t, interim);
    StatementsRun(base, mode, t, interim, stored, s.readable);
    MaterializedElsewhere(base, mode, t, interim, stored);
    hide Statements, Exec, Materialized, MadeRef;
    for i := 0 to |stmts|
      invariant i == 0 ==> s.catalog == base[Temp(interim) := stored]
      invariant s.sent >= old(s.sent)
      invariant i == 1 ==> Some(s.catalog) == Exec(base[Temp(interim) := stored], stmts[0], s.readable)
      invariant i == 2 ==> Some(s.catalog) == Also(Materialized(base, mode, t, stored), interim, stored)
    {
      ok := s.ExecSql(stmts[i]);
      if !ok {
        assert s.trail[|s.trail| - 1] == Request(stmts[i], false);
        ghost var made := MadeRef(t.temporary, TargetParts(t));
        ghost var left := if i == 1 && made !in base then base[made := stored.(rows := [])] else base;
        WithoutInterim(left, interim, stored);
        assert left == base <==> !(i == 1 && made !in base);
        return false;
      }
    }
    WithoutInterim(Materialized(base, mode, t, stored).value, interim, stored);
    return true;
  }

  /** The drop, whose failure goes unreported. */
  method DropInterim(s: Session, interim: string)
    requires Temp(interim) in s.catalog
    modifies s
    ensures s.sent == old(s.sent) + 1
    ensures s.catalog - {Temp(interim)} == old(s.catalog) - {Temp(interim)}
    ensures Temp(interim) in s.catalog ==> s.fails(s.sent - 1)
    ensures |s.trail| == |old(s.trail)| + 1 && s.trail[..|old(s.trail)|] == old(s.trail)
  {
    NameReadsBack(interim);
    hide ReadParts, QuoteIdent;
    var _ := s.ExecSql(Drop(QuoteIdent(interim)));
  }

  /** The listed columns are what remains to be converted, and then everything is as meant. */
  lemma ListedConverges(data: Data, direct: set<string>, wanted: seq<string>, listed: seq<string>,
                        readable: Bytes -> bool)
    requires Distinct(Raw(data).cols) && wanted == W.GeoNames(Fields(data.cols))
    requires forall n :: n in listed <==> n in wanted && IsBlob(Landed(data, direct).cols, n)
    ensures ConvertColumns(Landed(data, direct), Members(listed)) == Meant(data)
    ensures Distinct(Landed(data, direct).cols)
    ensures Acceptable(data, readable) <==>
            && Loadable(data, direct, readable)
            && forall n :: n in listed ==> ReadableColumn(Landed(data, direct), n, readable)
  {
    var geo := GeoNameSet(data);
    forall n ensures n in wanted <==> n in geo {
      GeoNamesListed(data.cols, n);
    }
    LandingConverges(data, direct, Members(listed));
    ConvertUnion(Raw(data), direct * geo, {});
    forall n ensures n in listed <==> n in geo && n !in direct && IsBlob(Raw(data).cols, n) {
      IsBlobAfter(Raw(data), direct * geo, n);
    }
    forall n | n in listed
      ensures ReadableColumn(Landed(data, direct), n, readable) <==> ReadableColumn(Raw(data), n, readable) {
      KeptColumn(Raw(data), direct * geo, n, readable);
    }
  }

  lemma KeptColumn(t: Table, a: set<string>, n: string, readable: Bytes -> bool)
    requires n !in a
    ensures ReadableColumn(ConvertColumns(t, a), n, readable) <==> ReadableColumn(t, n, readable)
  {
    var u := ConvertColumns(t, a);
    forall i | 0 <= i < |t.rows| ensures Get(u.rows[i], n) == Get(t.rows[i], n) {
    }
  }

  /** The inspection of the interim table and the conversion of what landed as BLOB. */
  method ConvertInterim(s: Session, data: Data, interim: string, ghost base: Catalog) returns (ok: bool)
    requires Reorders(s.order) && Loadable(data, s.direct, s.readable) && Temp(interim) !in base
    requires s.catalog == base[Temp(interim) := Landed(data, s.direct)]
    modifies s
    ensures Temp(interim) in s.catalog && s.catalog - {Temp(interim)} == base && s.sent >= old(s.sent)
    ensures ok ==> s.catalog == base[Temp(interim) := Meant(data)]
    ensures NoFaults(s.fails) ==> (ok <==> Acceptable(data, s.readable))
  {
    hide ConvertColumns, IsBlob, Raw, ReadableColumn, AllReadable, Distinct, NoDuplicates;
    hide Reorders, W.GeoNames, Fields, Members, GeoNameSet;
    ghost var landed := Landed(data, s.direct);
    WithoutInterim(base, interim, landed);
    ConvertUnion(Raw(data), s.direct * GeoNameSet(data), {});
    var wanted := W.GeoNames(Fields(data.cols));
    var blobCols := BlobTypedColumns(s, interim, wanted);
    if blobCols.None? {
      return false;
    }
    ListedConverges(data, s.direct, wanted, blobCols.value, s.readable);
    ok := RestoreGeometry(s, interim, blobCols.value, base, landed);
  }

  lemma UnusedIsAbsent(c: Catalog, interim: string)
    requires Unused(c, interim)
    ensures Temp(interim) !in c && c - {Temp(interim)} == c
  {
  }

  lemma LeftAlone(c: Catalog, mode: Mode, t: Target, stored: Table)
    ensures LeftBy(c, mode, t, stored, c)
  {
  }

  /** From the interim table to the target: conversion, then the statements of the mode. */
  method Transfer(s: Session, data: Data, t: Target, mode: Mode, interim: string, ghost base: Catalog)
    returns (ok: bool)
    requires Reorders(s.order) && Loadable(data, s.direct, s.readable) && Temp(interim) !in base && t.table != interim
    requires s.catalog == base[Temp(interim) := Landed(data, s.direct)]
    modifies s
    ensures Temp(interim) in s.catalog && s.sent >= old(s.sent)
    ensures ok ==> Materialized(base, mode, t, Meant(data)) == Some(s.catalog - {Temp(interim)})
    ensures !ok ==> LeftBy(base, mode, t, Meant(data), s.catalog - {Temp(interim)})
    ensures !ok && s.catalog - {Temp(interim)} != base ==>
              s.trail != [] && !s.trail[|s.trail| - 1].ok && s.trail[|s.trail| - 1].sql.InsertByName?
    ensures NoFaults(s.fails) ==>
              (ok <==> Acceptable(data, s.readable) && Materialized(base, mode, t, Meant(data)).Some?)
  {
    hide Materialized, Reorders, MadeRef, TargetParts, Landed, Meant, Acceptable, Loadable, ReadableColumn;
    ok := ConvertInterim(s, data, interim, base);
    if ok {
      ok := Materialize(s, mode, t, interim, base, Meant(data));
    }
  }

  /** The requests of `executeGeoIngest`: every way out after the bulk ingest goes through the drop. */
  method Ingest(s: Session, data: Data, t: Target, mode: Mode, interim: string) returns (affected: Option<nat>)
    requires Reorders(s.order) && Unused(s.catalog, interim) && t.table != interim
    modifies s
    ensures affected.Some? ==> affected.value == |data.rows|
    ensures affected.Some? ==> Materialized(old(s.catalog), mode, t, Meant(data)) == Some(s.catalog - {Temp(interim)})
    ensures affected.None? ==> LeftBy(old(s.catalog), mode, t, Meant(data), s.catalog - {Temp(interim)})
    ensures affected.None? && s.catalog - {Temp(interim)} != old(s.catalog) ==> InsertFailed(s.trail)
    ensures s.sent > 0 && (Temp(interim) in s.catalog ==> s.fails(s.sent - 1))
    ensures NoFaults(s.fails) ==>
              (affected.Some? <==>
               Acceptable(data, s.readable) && Materialized(old(s.catalog), mode, t, Meant(data)).Some?)
  {
    LoadableIfAcceptable(data, s.direct, s.readable);
    UnusedIsAbsent(s.catalog, interim);
    hide Materialized, Reorders, MadeRef, TargetParts, Landed, Meant, Acceptable, Loadable, Unused, LeftBy;
    ghost var base := s.catalog;
    LeftAlone(base, mode, t, Meant(data));
    var count := s.BulkIngest(data, interim);
    if count.None? {
      return None;
    }
    var ok := Transfer(s, data, t, mode, interim, base);
    DropInterim(s, interim);
    return if ok then count else None;
  }

  /**
  `executeGeoIngest`. Whatever the server lands as geometry by itself, and in whatever order it lists the
  columns, a run that succeeds has stored the table that is meant where the mode's statements put it,
  and reports the number of rows. A run that fails has left every table as it was, except that
  create_append has made its target, empty, if the insert that follows was what failed. The interim table
  is there afterwards only if the request to drop it, the last one sent, failed. What is stored is what
  the standard asks of the mode exactly under `MeetsMode`.
  */
  method ExecuteGeoIngest(s: Session, data: Data, t: Target, option: string, interim: string)
    returns (affected: Option<nat>)
    requires Reorders(s.order) && Unused(s.catalog, interim) && t.table != interim
    modifies s
    ensures affected.Some? ==> affected.value == |data.rows|
    ensures affected.Some? ==>
              Materialized(old(s.catalog), ModeOf(option), t, Meant(data)) == Some(s.catalog - {Temp(interim)})
    ensures affected.None? ==> LeftBy(old(s.catalog), ModeOf(option), t, Meant(data), s.catalog - {Temp(interim)})
    ensures affected.None? && s.catalog - {Temp(interim)} != old(s.catalog) ==> InsertFailed(s.trail)
    ensures s.sent > 0 && (Temp(interim) in s.catalog ==> s.fails(s.sent - 1))
    ensures NoFaults(s.fails) ==>
              (affected.Some? <==>
               Acceptable(data, s.readable) && Materialized(old(s.catalog), ModeOf(option), t, Meant(data)).Some?)
    ensures var asked := ModeSpec(old(s.catalog), ModeOf(option), MadeRef(t.temporary, TargetParts(t)), Meant(data));
            var meets := MeetsMode(old(s.catalog), ModeOf(option), t, Meant(data));
            && (affected.Some? ==> (asked == Some(s.catalog - {Temp(interim)}) <==> meets))
            && (NoFaults(s.fails) && meets ==> (affected.Some? <==> Acceptable(data, s.readable) && asked.Some?))
    ensures affected.Some? ==> StoredAsTold(old(s.catalog), option, t, Meant(data), s.catalog - {Temp(interim)})
    ensures NoFaults(s.fails) ==>
              (affected.Some? <==> Acceptable(data, s.readable) && Possible(old(s.catalog), option, t, Meant(data)))
    ensures option != "adbc.ingest.mode.replace" ==> KeepsRows(old(s.catalog), s.catalog - {Temp(interim)})
  {
    ModesAsTold(s.catalog, option, t, Meant(data));
    if option != "adbc.ingest.mode.replace" {
      NoModeLosesRows(s.catalog, option, t, Meant(data));
    }
    MeantIsComplete(data);
    MaterializedMeetsModeExactly(s.catalog, ModeOf(option), t, Meant(data));
    hide MeetsMode, ModeSpec, Complete, ModeOf, Materialized, Reorders, MadeRef, TargetParts, Unused, LeftBy;
    hide Meant, Acceptable, InsertFailed, StoredAsTold, Possible, KeepsRows;
    affected := Ingest(s, data, t, ModeOf(option), interim);
  }

  /** Whether it succeeds or fails, no mode but replace takes rows away. */
  lemma NoModeLosesRows(c: Catalog, option: string, t: Target, stored: Table)
    requires option != "adbc.ingest.mode.replace"
    ensures var m := Materialized(c, ModeOf(option), t, stored); m.Some? ==> KeepsRows(c, m.value)
    ensures forall after :: LeftBy(c, ModeOf(option), t, stored, after) ==> KeepsRows(c, after)
  {
    ModesAsTold(c, option, t, stored);
    var m := Materialized(c, ModeOf(option), t, stored);
    if m.Some? {
      OnlyReplaceLosesRows(c, option, t, stored, m.value);
    }
    hide Materialized, StoredAsTold, ModeOf;
  }

  lemma LoadableIfAcceptable(data: Data, direct: set<string>, readable: Bytes -> bool)
    ensures Acceptable(data, readable) ==> Loadable(data, direct, readable)
  {
  }
}
