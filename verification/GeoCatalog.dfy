/**
The server side of a geometry-aware ingest: a catalog of tables, the SQL statements that
go/gizmosql/geoingest.go sends, and what the four ingest modes of the ADBC standard (API revision 1.1.0,
"Bulk Data Ingestion") ask for.
*/
module GeoCatalog {
  import opened Wrappers
  import opened Quoting
  import Inner
  import W = StatementSpec

  type Bytes = seq<bv8>

  datatype Value = Null | Blob(bytes: Bytes) | Geometry(wkb: Bytes) | Other(text: string)

  datatype ColType = BlobType | GeometryType | OtherType(name: string)

  datatype Column = Column(name: string, typ: ColType)

  /** Rows are kept by column name; a column a row does not mention is NULL there. */
  type Row = map<string, Value>

  datatype Table = Table(cols: seq<Column>, rows: seq<Row>)

  /** Session-temporary tables apart from the others, which may carry a catalog and a schema. */
  datatype TableRef = Temp(name: string) | Named(parts: seq<string>)

  type Catalog = map<TableRef, Table>

  /** A bound column: its Arrow field and the type its storage has on the server. */
  datatype Bound = Bound(field: Inner.Field, storage: ColType)

  datatype Data = Data(cols: seq<Bound>, rows: seq<Row>)

  // ----- Columns -----

  predicate Distinct(cols: seq<Column>) {
    forall i, j :: 0 <= i < j < |cols| ==> cols[i].name != cols[j].name
  }

  predicate IsBlob(cols: seq<Column>, name: string) {
    exists i :: 0 <= i < |cols| && cols[i] == Column(name, BlobType)
  }

  function Get(row: Row, name: string): Value {
    if name in row then row[name] else Null
  }

  /** The row with a value for every column and for nothing else. */
  function Fitted(row: Row, cols: seq<Column>): Row {
    map i | 0 <= i < |cols| :: cols[i].name := Get(row, cols[i].name)
  }

  function NameSet(cols: seq<Column>): set<string> {
    set i | 0 <= i < |cols| :: cols[i].name
  }

  /** Every row has a value for every column and for nothing else. */
  predicate Complete(t: Table) {
    forall i :: 0 <= i < |t.rows| ==> t.rows[i].Keys == NameSet(t.cols)
  }

  // ----- What a landing is, and ST_GeomFromWKB -----

  function Converted(v: Value): Value {
    if v.Blob? then Geometry(v.bytes) else v
  }

  function ConvertRow(row: Row, names: set<string>): Row {
    map k | k in row :: if k in names then Converted(row[k]) else row[k]
  }

  /** The table with the BLOB columns among `names` turned into geometry columns. */
  function ConvertColumns(t: Table, names: set<string>): Table {
    var blobs := set n | n in names && IsBlob(t.cols, n);
    Table(seq(|t.cols|, i requires 0 <= i < |t.cols| =>
                if t.cols[i].name in names && t.cols[i].typ == BlobType then Column(t.cols[i].name, GeometryType)
                else t.cols[i]),
          seq(|t.rows|, i requires 0 <= i < |t.rows| => ConvertRow(t.rows[i], blobs)))
  }

  /** The bound data as it is, before any conversion: a row has a value, or NULL, in every column. */
  function Raw(data: Data): Table {
    var cols := seq(|data.cols|, i requires 0 <= i < |data.cols| =>
                      Column(data.cols[i].field.name, data.cols[i].storage));
    Table(cols, seq(|data.rows|, i requires 0 <= i < |data.rows| => Fitted(data.rows[i], cols)))
  }

  function Fields(cols: seq<Bound>): Inner.Schema {
    if |cols| == 0 then [] else [cols[0].field] + Fields(cols[1..])
  }

  function GeoNameSet(data: Data): set<string> {
    set i | 0 <= i < |data.cols| && W.IsGeo(data.cols[i].field) :: data.cols[i].field.name
  }

  /** What lands when the server itself turns the geo columns in `direct` into geometry. */
  function Landed(data: Data, direct: set<string>): Table {
    ConvertColumns(Raw(data), direct * GeoNameSet(data))
  }

  /** What an ingest is meant to store: every geo column that is stored as binary is a geometry column. */
  function Meant(data: Data): Table {
    ConvertColumns(Raw(data), GeoNameSet(data))
  }

  lemma MeantIsComplete(data: Data)
    ensures Complete(Meant(data))
  {
    var t, u := Raw(data), Meant(data);
    assert NameSet(t.cols) == NameSet(u.cols) by {
      forall n | n in NameSet(t.cols) ensures n in NameSet(u.cols) {
        var i :| 0 <= i < |t.cols| && t.cols[i].name == n;
        assert u.cols[i].name == n;
      }
      forall n | n in NameSet(u.cols) ensures n in NameSet(t.cols) {
        var i :| 0 <= i < |u.cols| && u.cols[i].name == n;
        assert t.cols[i].name == n;
      }
    }
  }

  lemma {:induction false} GeoNamesListed(cols: seq<Bound>, n: string)
    ensures n in W.GeoNames(Fields(cols)) <==>
            exists i :: 0 <= i < |cols| && W.IsGeo(cols[i].field) && cols[i].field.name == n
  {
    if |cols| == 0 {
    } else {
      GeoNamesListed(cols[1..], n);
      assert Fields(cols)[0] == cols[0].field && Fields(cols)[1..] == Fields(cols[1..]);
      assert forall i :: 1 <= i < |cols| ==> cols[i] == cols[1..][i - 1];
      assert forall i :: 0 <= i < |cols[1..]| ==> cols[1..][i] == cols[i + 1];
    }
  }

  lemma IsBlobAfter(t: Table, a: set<string>, name: string)
    requires Distinct(t.cols)
    ensures IsBlob(ConvertColumns(t, a).cols, name) <==> IsBlob(t.cols, name) && name !in a
  {
    var u := ConvertColumns(t, a);
    if IsBlob(u.cols, name) {
      var i :| 0 <= i < |u.cols| && u.cols[i] == Column(name, BlobType);
      assert t.cols[i] == Column(name, BlobType);
    }
    if IsBlob(t.cols, name) && name !in a {
      var i :| 0 <= i < |t.cols| && t.cols[i] == Column(name, BlobType);
      assert u.cols[i] == Column(name, BlobType);
    }
  }

  /** Converting some columns and then others is converting all of them: the order does not matter. */
  lemma ConvertUnion(t: Table, a: set<string>, b: set<string>)
    requires Distinct(t.cols)
    ensures ConvertColumns(ConvertColumns(t, a), b) == ConvertColumns(t, a + b)
    ensures Distinct(ConvertColumns(t, a).cols)
  {
    var u := ConvertColumns(t, a);
    var v, w := ConvertColumns(u, b), ConvertColumns(t, a + b);
    assert v.cols == w.cols;
    forall i | 0 <= i < |t.rows| ensures v.rows[i] == w.rows[i] {
      forall k | k in t.rows[i] ensures v.rows[i][k] == w.rows[i][k] {
        IsBlobAfter(t, a, k);
      }
    }
    assert v.rows == w.rows;
  }

  /** Nothing to convert, nothing changed. */
  lemma ConvertNothing(t: Table, a: set<string>)
    requires forall n :: n in a ==> !IsBlob(t.cols, n)
    ensures ConvertColumns(t, a) == t
  {
    var u := ConvertColumns(t, a);
    forall i | 0 <= i < |t.cols| ensures u.cols[i] == t.cols[i] {
      assert t.cols[i].typ == BlobType ==> IsBlob(t.cols, t.cols[i].name);
    }
    forall i | 0 <= i < |t.rows| ensures u.rows[i] == t.rows[i] {
      assert u.rows[i] == ConvertRow(t.rows[i], {});
    }
    assert u.cols == t.cols && u.rows == t.rows;
  }

  /** Whatever the server turned into geometry itself, converting the remaining BLOB geo columns is what is meant. */
  lemma LandingConverges(data: Data, direct: set<string>, rest: set<string>)
    requires Distinct(Raw(data).cols) && rest <= GeoNameSet(data)
    requires forall n :: n in GeoNameSet(data) && IsBlob(Landed(data, direct).cols, n) ==> n in rest
    ensures ConvertColumns(Landed(data, direct), rest) == Meant(data)
  {
    var geo := GeoNameSet(data);
    var landed := Landed(data, direct);
    ConvertUnion(Raw(data), direct * geo, rest);
    ConvertUnion(Raw(data), direct * geo, geo);
    assert direct * geo + geo == geo;
    var missed := geo - rest;
    ConvertUnion(landed, rest, missed);
    assert rest + missed == geo;
    var done := ConvertColumns(landed, rest);
    forall n | n in missed ensures !IsBlob(done.cols, n) {
      ConvertUnion(Raw(data), direct * geo, {});
      IsBlobAfter(landed, rest, n);
    }
    ConvertNothing(done, missed);
  }

  /** The field carries the name of some geoarrow extension, and arrives as binary. */
  predicate IsBinaryGeo(c: Bound) {
    && c.field.extension.Some? && c.storage == BlobType
    && |c.field.extension.value| >= 9 && c.field.extension.value[..9] == "geoarrow."
  }

  /** What is meant, column by column: binary geo columns become geometry, every other column is as bound. */
  lemma MeantColumnwise(data: Data, i: nat)
    requires Distinct(Raw(data).cols) && i < |data.cols|
    ensures var c := data.cols[i];
            Meant(data).cols[i] == Column(c.field.name, if IsBinaryGeo(c) then GeometryType else c.storage)
    ensures var c := data.cols[i];
            forall k :: 0 <= k < |data.rows| ==>
              var v := Get(data.rows[k], c.field.name);
              Get(Meant(data).rows[k], c.field.name) == if IsBinaryGeo(c) && v.Blob? then Geometry(v.bytes) else v
  {
    var c := data.cols[i];
    var name := c.field.name;
    assert Raw(data).cols[i] == Column(name, c.storage);
    forall k | 0 <= k < |data.rows| ensures Get(Raw(data).rows[k], name) == Get(data.rows[k], name) {
    }
    if name in GeoNameSet(data) {
      var j :| 0 <= j < |data.cols| && W.IsGeo(data.cols[j].field) && data.cols[j].field.name == name;
      assert Raw(data).cols[j].name == name;
      assert j == i;
    }
    if IsBlob(Raw(data).cols, name) {
      var j :| 0 <= j < |data.cols| && Raw(data).cols[j] == Column(name, BlobType);
      assert j == i;
    }
  }

  // ----- Statements -----

  /** How `CREATE TABLE ... AS` treats a table that exists. */
  datatype Creation = Plainly | OrReplace | IfNotExists

  /** The statements of the ingest; names are quoted texts. */
  datatype Sql =
    | Drop(table: string)                                                              // DROP TABLE IF EXISTS
    | ToGeometry(table: string, column: string)                                        // ALTER ... USING ST_GeomFromWKB
    | CreateAs(how: Creation, temporary: bool, target: string, source: string, empty: bool)  // empty: LIMIT 0
    | InsertByName(target: string, source: string)

  /** An unqualified name is a session-temporary table if there is one of that name. */
  function Find(c: Catalog, parts: seq<string>): TableRef {
    if |parts| == 1 && Temp(parts[0]) in c then Temp(parts[0]) else Named(parts)
  }

  function MadeRef(temporary: bool, parts: seq<string>): TableRef {
    if temporary && |parts| == 1 then Temp(parts[0]) else Named(parts)
  }

  /** `INSERT ... BY NAME` needs every source column in the target, with its type. */
  predicate Insertable(source: seq<Column>, target: seq<Column>) {
    forall i :: 0 <= i < |source| ==> source[i] in target
  }

  function Appended(t: Table, more: Table): Table {
    Table(t.cols, t.rows + seq(|more.rows|, i requires 0 <= i < |more.rows| => Fitted(more.rows[i], t.cols)))
  }

  function AppendTo(c: Catalog, r: TableRef, more: Table): Option<Catalog> {
    if r in c && Insertable(more.cols, c[r].cols) then Some(c[r := Appended(c[r], more)]) else None
  }

  function MakeFrom(c: Catalog, how: Creation, r: TableRef, t: Table): Option<Catalog> {
    if r !in c || how == OrReplace then Some(c[r := t])
    else if how == IfNotExists then Some(c)
    else None
  }

  /** ST_GeomFromWKB binds to BLOB columns only and needs every value to be readable. */
  predicate CanConvert(t: Table, name: string, readable: Bytes -> bool) {
    && IsBlob(t.cols, name)
    && forall i :: 0 <= i < |t.rows| ==> Readable(Get(t.rows[i], name), readable)
  }

  predicate Readable(v: Value, readable: Bytes -> bool) {
    v.Null? || (v.Blob? && readable(v.bytes))
  }

  /** A statement that fails leaves the catalog alone. */
  function Exec(c: Catalog, sql: Sql, readable: Bytes -> bool): Option<Catalog> {
    match sql
    case Drop(table) =>
      var t :- ReadParts(table);
      Some(c - {Find(c, t)})
    case ToGeometry(table, column) =>
      var t :- ReadParts(table);
      var col :- ReadParts(column);
      if |col| == 1 && Find(c, t) in c && CanConvert(c[Find(c, t)], col[0], readable)
      then Some(c[Find(c, t) := ConvertColumns(c[Find(c, t)], {col[0]})])
      else None
    case CreateAs(how, temporary, target, source, empty) =>
      var t :- ReadParts(target);
      var s :- ReadParts(source);
      if Find(c, s) !in c then None
      else
        var from := c[Find(c, s)];
        MakeFrom(c, how, MadeRef(temporary, t), if empty then from.(rows := []) else from)
    case InsertByName(target, source) =>
      var t :- ReadParts(target);
      var s :- ReadParts(source);
      if Find(c, s) !in c then None else AppendTo(c, Find(c, t), c[Find(c, s)])
  }

  // ----- Modes -----

  datatype Mode = Create | Append | Replace | CreateAppend

  const MODE_APPEND := "adbc.ingest.mode.append"
  const MODE_REPLACE := "adbc.ingest.mode.replace"
  const MODE_CREATE_APPEND := "adbc.ingest.mode.create_append"

  /** Any other text, the unset one included, means create. */
  function ModeOf(option: string): Mode {
    if option == MODE_REPLACE then Replace
    else if option == MODE_APPEND then Append
    else if option == MODE_CREATE_APPEND then CreateAppend
    else Create
  }

  /** The data match a table: the same columns with the same types, in whatever order. */
  predicate SameSchema(source: seq<Column>, target: seq<Column>) {
    && (forall i :: 0 <= i < |source| ==> source[i] in target)
    && (forall i :: 0 <= i < |target| ==> target[i] in source)
  }

  /** The standard's append: the table must exist and match, and then gets the rows. */
  function StdAppend(c: Catalog, r: TableRef, t: Table): Option<Catalog> {
    if r in c && SameSchema(t.cols, c[r].cols) then Some(c[r := Table(c[r].cols, c[r].rows + t.rows)]) else None
  }

  /** What the standard asks of a mode, given the table that is meant. */
  function ModeSpec(c: Catalog, mode: Mode, r: TableRef, t: Table): Option<Catalog> {
    match mode
    case Create => if r in c then None else Some(c[r := t])
    case Replace => Some(c[r := t])
    case Append => StdAppend(c, r, t)
    case CreateAppend => if r in c then StdAppend(c, r, t) else Some(c[r := t])
  }

  /** The catalog when the insert comes: create_append has made its target if need be. */
  function WithTarget(c: Catalog, mode: Mode, made: TableRef, stored: Table): Catalog {
    if mode == CreateAppend && made !in c then c[made := stored.(rows := [])] else c
  }

  /** What the statements do: the insert goes where its unqualified name leads. */
  function Materialized(c: Catalog, mode: Mode, t: Target, stored: Table): Option<Catalog> {
    var parts := TargetParts(t);
    var made := MadeRef(t.temporary, parts);
    match mode
    case Create => MakeFrom(c, Plainly, made, stored)
    case Replace => MakeFrom(c, OrReplace, made, stored)
    case _ =>
      var d := WithTarget(c, mode, made, stored);
      AppendTo(d, Find(d, parts), stored)
  }

  /** An append by name keeps to the standard unless the data lack columns of the table. */
  lemma AppendAsAskedExactly(c: Catalog, r: TableRef, t: Table)
    requires Complete(t)
    ensures AppendTo(c, r, t) == StdAppend(c, r, t) <==>
            !(r in c && Insertable(t.cols, c[r].cols) && !SameSchema(t.cols, c[r].cols))
  {
    if r in c && SameSchema(t.cols, c[r].cols) {
      AppendedAsIs(c[r], t);
    }
  }

  /** Rows that already have exactly the columns of the table are appended as they are. */
  lemma AppendedAsIs(t: Table, more: Table)
    requires Complete(more) && SameSchema(more.cols, t.cols)
    ensures Appended(t, more) == Table(t.cols, t.rows + more.rows)
  {
    assert NameSet(more.cols) == NameSet(t.cols) by {
      forall n | n in NameSet(more.cols) ensures n in NameSet(t.cols) {
        var i :| 0 <= i < |more.cols| && more.cols[i].name == n;
        var j :| 0 <= j < |t.cols| && t.cols[j] == more.cols[i];
      }
      forall n | n in NameSet(t.cols) ensures n in NameSet(more.cols) {
        var i :| 0 <= i < |t.cols| && t.cols[i].name == n;
        var j :| 0 <= j < |more.cols| && more.cols[j] == t.cols[i];
      }
    }
    forall i | 0 <= i < |more.rows| ensures Fitted(more.rows[i], t.cols) == more.rows[i] {
      assert more.rows[i].Keys == NameSet(t.cols);
    }
  }

  /** The insert goes to another table than the one the options name. */
  predicate Misdirected(c: Catalog, mode: Mode, t: Target) {
    var parts := TargetParts(t);
    match mode
    case Append => Find(c, parts) != MadeRef(t.temporary, parts)
    case CreateAppend => !t.temporary && |parts| == 1 && Temp(t.table) in c
    case _ => false
  }

  /** The target exists, and the data have some of its columns but not all. */
  predicate Mismatched(c: Catalog, mode: Mode, t: Target, stored: Table) {
    var made := MadeRef(t.temporary, TargetParts(t));
    && (mode == Append || mode == CreateAppend)
    && made in c && Insertable(stored.cols, c[made].cols) && !SameSchema(stored.cols, c[made].cols)
  }

  /**
  What can be checked before an ingest: the table the insert reaches takes the data exactly if the table
  the options name exists, or may be created, and matches, and the two are one table unless there is
  nothing to insert.
  */
  predicate MeetsMode(c: Catalog, mode: Mode, t: Target, stored: Table) {
    var parts := TargetParts(t);
    var made := MadeRef(t.temporary, parts);
    var d := WithTarget(c, mode, made, stored);
    var reached := Find(d, parts);
    var taken := reached in d && Insertable(stored.cols, d[reached].cols);
    var asked := if made in c then SameSchema(stored.cols, c[made].cols) else mode == CreateAppend;
    mode == Create || mode == Replace || (taken == asked && (taken ==> reached == made || stored.rows == []))
  }

  lemma AppendToNothing(c: Catalog, r: TableRef, t: Table)
    requires Complete(t)
    ensures AppendTo(c[r := t.(rows := [])], r, t) == Some(c[r := t])
  {
    var empty := t.(rows := []);
    AppendedAsIs(empty, t);
    assert empty.rows + t.rows == t.rows;
    assert c[r := empty][r := t] == c[r := t];
  }

  /** The statements do what the standard asks, errors included, exactly under that condition. */
  lemma MaterializedMeetsModeExactly(c: Catalog, mode: Mode, t: Target, stored: Table)
    requires Complete(stored)
    ensures Materialized(c, mode, t, stored) == ModeSpec(c, mode, MadeRef(t.temporary, TargetParts(t)), stored)
            <==> MeetsMode(c, mode, t, stored)
  {
    if mode == Append || mode == CreateAppend {
      var parts := TargetParts(t);
      var made := MadeRef(t.temporary, parts);
      var d := WithTarget(c, mode, made, stored);
      if Find(d, parts) == made {
        ReachedTargetMeetsMode(c, mode, made, stored);
      } else {
        OtherTargetMeetsMode(c, mode, made, Find(d, parts), stored);
      }
    }
  }

  lemma ReachedTargetMeetsMode(c: Catalog, mode: Mode, made: TableRef, stored: Table)
    requires Complete(stored) && (mode == Append || mode == CreateAppend)
    ensures var d := WithTarget(c, mode, made, stored);
            var taken := made in d && Insertable(stored.cols, d[made].cols);
            var asked := if made in c then SameSchema(stored.cols, c[made].cols) else mode == CreateAppend;
            AppendTo(d, made, stored) == ModeSpec(c, mode, made, stored) <==> taken == asked
  {
    if made in c {
      AppendAsAskedExactly(c, made, stored);
    } else {
      AppendToNothing(c, made, stored);
    }
  }

  lemma OtherTargetMeetsMode(c: Catalog, mode: Mode, made: TableRef, reached: TableRef, stored: Table)
    requires Complete(stored) && (mode == Append || mode == CreateAppend) && reached != made
    ensures var d := WithTarget(c, mode, made, stored);
            var taken := reached in d && Insertable(stored.cols, d[reached].cols);
            var asked := if made in c then SameSchema(stored.cols, c[made].cols) else mode == CreateAppend;
            AppendTo(d, reached, stored) == ModeSpec(c, mode, made, stored) <==>
            taken == asked && (taken ==> stored.rows == [])
  {
    var d := WithTarget(c, mode, made, stored);
    var got, want := AppendTo(d, reached, stored), ModeSpec(c, mode, made, stored);
    if got.Some? && want.Some? {
      assert |Appended(d[reached], stored).rows| == |d[reached].rows| + |stored.rows|;
      assert want.value[reached] == c[reached];
      if stored.rows == [] {
        assert Appended(d[reached], stored) == d[reached];
        assert got.value == d;
        if made in c {
          assert c[made].rows + stored.rows == c[made].rows;
          assert want.value == c;
        } else {
          assert stored.(rows := []) == stored;
        }
      }
    }
  }

  /** A run whose insert reaches its target does what is asked exactly if the schemas do not differ that way. */
  lemma MaterializedAsAsked(c: Catalog, mode: Mode, t: Target, stored: Table)
    requires Complete(stored) && !Misdirected(c, mode, t)
    ensures Materialized(c, mode, t, stored) == ModeSpec(c, mode, MadeRef(t.temporary, TargetParts(t)), stored)
            <==> !Mismatched(c, mode, t, stored)
  {
    if mode == Append || mode == CreateAppend {
      ReachedTargetMeetsMode(c, mode, MadeRef(t.temporary, TargetParts(t)), stored);
    }
  }

  /** With rows to store, a run that succeeds meets its mode exactly when its insert goes where it should
      and the schemas do not differ. */
  lemma MaterializedAsAskedExactly(c: Catalog, mode: Mode, t: Target, stored: Table)
    requires Complete(stored) && stored.rows != [] && Materialized(c, mode, t, stored).Some?
    ensures Materialized(c, mode, t, stored) == ModeSpec(c, mode, MadeRef(t.temporary, TargetParts(t)), stored)
            <==> !Misdirected(c, mode, t) && !Mismatched(c, mode, t, stored)
  {
    if Misdirected(c, mode, t) {
      var parts := TargetParts(t);
      var made := MadeRef(t.temporary, parts);
      OtherTargetMeetsMode(c, mode, made, Find(WithTarget(c, mode, made, stored), parts), stored);
    } else {
      MaterializedAsAsked(c, mode, t, stored);
    }
  }

  /** So data without one of the two columns of a table are appended to it, in both appending modes, where
      the standard asks for an error. */
  lemma NarrowDataAreAppended(rows: seq<Row>, row: Row)
    requires row.Keys == {"a"}
    ensures var t := Target("t", "", "", false);
            var a, b := Column("a", OtherType("INTEGER")), Column("b", OtherType("INTEGER"));
            var c := map[Named(["t"]) := Table([a, b], rows)];
            var stored := Table([a], [row]);
            && Materialized(c, Append, t, stored).Some? && ModeSpec(c, Append, Named(["t"]), stored).None?
            && Materialized(c, CreateAppend, t, stored).Some? && ModeSpec(c, CreateAppend, Named(["t"]), stored).None?
  {
    var t := Target("t", "", "", false);
    assert TargetParts(t) == ["t"];
    var a, b := Column("a", OtherType("INTEGER")), Column("b", OtherType("INTEGER"));
    assert [a, b][0] == a && [a, b][1] == b && b !in [a];
  }

  /** And rows meant for a table are stored in a temporary table of the same name, if there is one. */
  lemma RowsGoToTheTemporaryTable(name: string, cols: seq<Column>, mine: seq<Row>, theirs: seq<Row>, rows: seq<Row>)
    requires Complete(Table(cols, rows)) && rows != []
    ensures var t := Target(name, "", "", false); var temp, named := Temp(name), Named([name]);
            var c := map[temp := Table(cols, theirs), named := Table(cols, mine)];
            var stored := Table(cols, rows);
            forall mode :: mode == Append || mode == CreateAppend ==>
              && Misdirected(c, mode, t)
              && Materialized(c, mode, t, stored) == Some(c[temp := Table(cols, theirs + rows)])
              && ModeSpec(c, mode, named, stored) == Some(c[named := Table(cols, mine + rows)])
              && Materialized(c, mode, t, stored) != ModeSpec(c, mode, named, stored)
  {
    var t := Target(name, "", "", false);
    assert TargetParts(t) == [name];
    var stored := Table(cols, rows);
    AppendedAsIs(Table(cols, theirs), stored);
    var c := map[Temp(name) := Table(cols, theirs), Named([name]) := Table(cols, mine)];
    assert |theirs + rows| > |theirs|;
    assert c[Temp(name) := Table(cols, theirs + rows)][Temp(name)] != c[Temp(name)];
    hide Appended, Complete;
  }
}
