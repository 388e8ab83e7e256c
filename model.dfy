/**
 * The nested schema model that `getOracleORM` builds from the groups (index.js:343-372):
 * owners keyed by their sanitised name, each holding its tables keyed by their sanitised
 * name; every table carries its raw name and owner, the raw and the sanitised column names
 * as two parallel lists, one property per sanitised column name, and the connection it was
 * read with.
 */
module SchemaModel {
  import opened Wrappers
  import opened Text
  import opened OrderedDict
  import opened Catalog
  import opened Normalizer

  /** `{user, password, connectString}`; a missing field is `None`. */
  datatype DbConfig = DbConfig(user: Option<string>, password: Option<string>, connectString: Option<string>)

  /** The property a table has for one column: `{name, dataType}`, with the raw column name. */
  datatype ColumnDef = ColumnDef(name: string, dataType: string)

  /**
   * `schemas.<owner>.Tables.<tableName>`: the raw `name` and `owner`, the parallel lists
   * `selectColumns` (raw) and `selectColumnsFormatted` (sanitised), the column properties
   * in property order, `DB_CONNECTION` and `DB_TYPE`.
   */
  datatype Table = Table(
    name: string,
    owner: string,
    selectColumns: seq<string>,
    selectColumnsFormatted: seq<string>,
    columns: Dict<ColumnDef>,
    connection: DbConfig,
    dbType: string)

  /** `schemas.<owner>`: its `name` and its `Tables`. */
  datatype Schema = Schema(name: string, tables: Dict<Table>)

  /** The object `getOracleORM` returns: `DB_CONNECTION`, `DB_TYPE` and one property per owner. */
  datatype DbSchema = DbSchema(connection: DbConfig, dbType: string, schemas: Dict<Schema>)

  const ORACLE: string := "ORACLE"

  // ---------------------------------------------------------------------------
  // The construction, one assignment at a time
  // ---------------------------------------------------------------------------

  /** The table object just after `= {}` and the assignments of index.js:355-361. */
  function EmptyTable(g: TableGroup, conn: DbConfig): Table
  {
    Table(g.tableNameValue, g.ownerValue, [], [], [], conn, ORACLE)
  }

  /** The assignments of index.js:364-368 for one column. */
  function AddColumn(t: Table, c: Column): Table
  {
    t.(columns := Put(t.columns, c.columnName, ColumnDef(c.columnNameValue, c.dataType)),
       selectColumns := t.selectColumns + [c.columnNameValue],
       selectColumnsFormatted := t.selectColumnsFormatted + [c.columnName])
  }

  function TableWith(g: TableGroup, conn: DbConfig, cols: seq<Column>): Table
  {
    if |cols| == 0 then EmptyTable(g, conn)
    else AddColumn(TableWith(g, conn, cols[..|cols| - 1]), cols[|cols| - 1])
  }

  /** The table object built for group `g`. */
  function TableOf(g: TableGroup, conn: DbConfig): Table
  {
    TableWith(g, conn, g.columns)
  }

  /** One iteration of the loop at index.js:351-371: create the owner if absent, then (re)create the table. */
  function AddGroup(m: DbSchema, g: TableGroup): DbSchema
  {
    var s := match Get(m.schemas, g.owner)
      case Some(s) => s
      case None => Schema(g.owner, []);
    m.(schemas := Put(m.schemas, g.owner, s.(tables := Put(s.tables, g.tableName, TableOf(g, m.connection)))))
  }

  /** The model after the loop has run over all of `orm`. */
  function Built(orm: seq<TableGroup>, conn: DbConfig): DbSchema
  {
    if |orm| == 0 then DbSchema(conn, ORACLE, [])
    else AddGroup(Built(orm[..|orm| - 1], conn), orm[|orm| - 1])
  }

  /** `schemas.<owner>.Tables.<tableName>`, or `None` when either step finds nothing. */
  function Lookup(m: DbSchema, owner: string, tableName: string): Option<Table>
  {
    match Get(m.schemas, owner)
    case None => None
    case Some(s) => Get(s.tables, tableName)
  }

  // ---------------------------------------------------------------------------
  // Reference definitions and invariants
  // ---------------------------------------------------------------------------

  /** The property the last column sanitised to `k` leaves behind. */
  function LastColumnNamed(cols: seq<Column>, k: string): Option<ColumnDef>
  {
    if |cols| == 0 then None
    else if cols[|cols| - 1].columnName == k then Some(ColumnDef(cols[|cols| - 1].columnNameValue, cols[|cols| - 1].dataType))
    else LastColumnNamed(cols[..|cols| - 1], k)
  }

  /** The last group whose sanitised owner and table names are `owner` and `tableName`. */
  function LastGroupAt(orm: seq<TableGroup>, owner: string, tableName: string): Option<TableGroup>
  {
    if |orm| == 0 then None
    else if orm[|orm| - 1].owner == owner && orm[|orm| - 1].tableName == tableName then Some(orm[|orm| - 1])
    else LastGroupAt(orm[..|orm| - 1], owner, tableName)
  }

  /** The sanitised owner names of the groups. */
  function Owners(orm: seq<TableGroup>): (os: seq<string>)
    ensures |os| == |orm| && forall i :: 0 <= i < |orm| ==> os[i] == orm[i].owner
  {
    if |orm| == 0 then [] else Owners(orm[..|orm| - 1]) + [orm[|orm| - 1].owner]
  }

  /** What every table of a model built from well-formed groups satisfies. */
  ghost predicate TableValid(ownerKey: string, tableKey: string, t: Table, conn: DbConfig)
  {
    && Sanitize(t.owner) == ownerKey
    && Sanitize(t.name) == tableKey
    && |t.selectColumns| == |t.selectColumnsFormatted| >= 1
    && (forall j :: 0 <= j < |t.selectColumns| ==> t.selectColumnsFormatted[j] == Sanitize(t.selectColumns[j]))
    && (forall j :: 0 <= j < |t.selectColumnsFormatted| ==> Get(t.columns, t.selectColumnsFormatted[j]).Some?)
    && DistinctKeys(t.columns)
    && t.connection == conn
    && t.dbType == ORACLE
  }

  ghost predicate SchemaValid(ownerKey: string, s: Schema, conn: DbConfig)
  {
    && s.name == ownerKey
    && DistinctKeys(s.tables)
    && forall tk :: Get(s.tables, tk).Some? ==> TableValid(ownerKey, tk, Get(s.tables, tk).value, conn)
  }

  ghost predicate ModelValid(m: DbSchema)
  {
    && m.dbType == ORACLE
    && DistinctKeys(m.schemas)
    && forall ok :: Get(m.schemas, ok).Some? ==> SchemaValid(ok, Get(m.schemas, ok).value, m.connection)
  }

  // ---------------------------------------------------------------------------
  // Lemmas
  // ---------------------------------------------------------------------------

  /** The table keeps the group's raw names and the connection it was read with. */
  lemma {:induction false} TableWithHeader(g: TableGroup, conn: DbConfig, cols: seq<Column>)
    ensures TableWith(g, conn, cols).name == g.tableNameValue
    ensures TableWith(g, conn, cols).owner == g.ownerValue
    ensures TableWith(g, conn, cols).connection == conn
    ensures TableWith(g, conn, cols).dbType == ORACLE
  {
    if |cols| > 0 {
      TableWithHeader(g, conn, cols[..|cols| - 1]);
    }
  }

  /** The raw column names of `cols`, in order. */
  function RawNames(cols: seq<Column>): (ns: seq<string>)
    ensures |ns| == |cols| && forall j :: 0 <= j < |cols| ==> ns[j] == cols[j].columnNameValue
  {
    if |cols| == 0 then [] else RawNames(cols[..|cols| - 1]) + [cols[|cols| - 1].columnNameValue]
  }

  /** The sanitised column names of `cols`, in order. */
  function SanitizedNames(cols: seq<Column>): (ns: seq<string>)
    ensures |ns| == |cols| && forall j :: 0 <= j < |cols| ==> ns[j] == cols[j].columnName
  {
    if |cols| == 0 then [] else SanitizedNames(cols[..|cols| - 1]) + [cols[|cols| - 1].columnName]
  }

  /** A table lists every column twice, raw and sanitised, in group order. */
  lemma {:induction false} TableWithLists(g: TableGroup, conn: DbConfig, cols: seq<Column>)
    ensures TableWith(g, conn, cols).selectColumns == RawNames(cols)
    ensures TableWith(g, conn, cols).selectColumnsFormatted == SanitizedNames(cols)
  {
    if |cols| > 0 {
      var init := cols[..|cols| - 1];
      TableWithLists(g, conn, init);
    }
  }

  /** A table has one property per sanitised column name: that of the last column with the name. */
  lemma {:induction false} TableWithProperties(g: TableGroup, conn: DbConfig, cols: seq<Column>)
    ensures DistinctKeys(TableWith(g, conn, cols).columns)
    ensures forall k :: Get(TableWith(g, conn, cols).columns, k) == LastColumnNamed(cols, k)
  {
    if |cols| > 0 {
      var init := cols[..|cols| - 1];
      var c := cols[|cols| - 1];
      TableWithProperties(g, conn, init);
      var d := TableWith(g, conn, init).columns;
      var r := Put(d, c.columnName, ColumnDef(c.columnNameValue, c.dataType));
      assert TableWith(g, conn, cols).columns == r;
      forall k ensures Get(r, k) == LastColumnNamed(cols, k) {
        if k != c.columnName {
          assert Get(r, k) == Get(d, k);
        }
      }
    }
  }

  /** A column's sanitised name always has a property: the last column with that name. */
  lemma {:induction false} LastColumnNamedFound(cols: seq<Column>, j: nat)
    requires j < |cols|
    ensures LastColumnNamed(cols, cols[j].columnName).Some?
  {
    if j < |cols| - 1 && cols[|cols| - 1].columnName != cols[j].columnName {
      LastColumnNamedFound(cols[..|cols| - 1], j);
    }
  }

  /** The properties `cols` would leave if no two shared a sanitised name: one per column, in order. */
  function ColumnDefs(cols: seq<Column>): (ds: seq<ColumnDef>)
    ensures |ds| == |cols|
    ensures forall j :: 0 <= j < |cols| ==> ds[j] == ColumnDef(cols[j].columnNameValue, cols[j].dataType)
  {
    if |cols| == 0 then []
    else ColumnDefs(cols[..|cols| - 1]) + [ColumnDef(cols[|cols| - 1].columnNameValue, cols[|cols| - 1].dataType)]
  }

  /** When no two columns share a sanitised name, the properties are the columns, in group order. */
  lemma {:induction false} DistinctNamesKeepColumnOrder(g: TableGroup, conn: DbConfig, cols: seq<Column>)
    requires forall i, j :: 0 <= i < j < |cols| ==> cols[i].columnName != cols[j].columnName
    ensures Values(TableWith(g, conn, cols).columns) == ColumnDefs(cols)
  {
    if |cols| > 0 {
      var init := cols[..|cols| - 1];
      assert forall i, j :: 0 <= i < j < |init| ==> init[i].columnName != init[j].columnName by {
        forall i, j | 0 <= i < j < |init| ensures init[i].columnName != init[j].columnName {
          assert init[i] == cols[i] && init[j] == cols[j];
        }
      }
      DistinctNamesKeepColumnOrder(g, conn, init);
      LastNameFresh(g, conn, cols);
      FreshNameAppends(g, conn, cols);
    }
  }

  /** The last column's name is not yet a property when the names before it differ from it. */
  lemma LastNameFresh(g: TableGroup, conn: DbConfig, cols: seq<Column>)
    requires |cols| > 0
    requires forall j :: 0 <= j < |cols| - 1 ==> cols[j].columnName != cols[|cols| - 1].columnName
    ensures Get(TableWith(g, conn, cols[..|cols| - 1]).columns, cols[|cols| - 1].columnName).None?
  {
    var init, k := cols[..|cols| - 1], cols[|cols| - 1].columnName;
    TableWithProperties(g, conn, init);
    if LastColumnNamed(init, k).Some? {
      LastColumnNamedIn(init, k);
    }
  }

  /** A column under a fresh name appends one property. */
  lemma FreshNameAppends(g: TableGroup, conn: DbConfig, cols: seq<Column>)
    requires |cols| > 0
    requires Get(TableWith(g, conn, cols[..|cols| - 1]).columns, cols[|cols| - 1].columnName).None?
    requires Values(TableWith(g, conn, cols[..|cols| - 1]).columns) == ColumnDefs(cols[..|cols| - 1])
    ensures Values(TableWith(g, conn, cols).columns) == ColumnDefs(cols)
  {
    var c := cols[|cols| - 1];
    var d := TableWith(g, conn, cols[..|cols| - 1]).columns;
    var v := ColumnDef(c.columnNameValue, c.dataType);
    PutKeys(d, c.columnName, v);
    assert TableWith(g, conn, cols).columns == d + [Entry(c.columnName, v)];
    assert (d + [Entry(c.columnName, v)])[..|d|] == d;
  }

  /** A property found for `k` comes from a column sanitised to `k`. */
  lemma {:induction false} LastColumnNamedIn(cols: seq<Column>, k: string)
    requires LastColumnNamed(cols, k).Some?
    ensures exists j :: 0 <= j < |cols| && cols[j].columnName == k
    ensures exists j :: 0 <= j < |cols| && LastColumnNamed(cols, k).value == ColumnDef(cols[j].columnNameValue, cols[j].dataType)
  {
    if cols[|cols| - 1].columnName != k {
      LastColumnNamedIn(cols[..|cols| - 1], k);
      var j :| 0 <= j < |cols| - 1 && cols[..|cols| - 1][j].columnName == k;
      assert cols[j].columnName == k;
      var j' :| 0 <= j' < |cols| - 1 &&
        LastColumnNamed(cols[..|cols| - 1], k).value == ColumnDef(cols[..|cols| - 1][j'].columnNameValue, cols[..|cols| - 1][j'].dataType);
      assert cols[..|cols| - 1][j'] == cols[j'];
    } else {
      assert LastColumnNamed(cols, k).value == ColumnDef(cols[|cols| - 1].columnNameValue, cols[|cols| - 1].dataType);
    }
  }

  /** The group a lookup by sanitised names finds is one of the groups. */
  lemma {:induction false} LastGroupAtIn(orm: seq<TableGroup>, owner: string, tableName: string)
    requires LastGroupAt(orm, owner, tableName).Some?
    ensures LastGroupAt(orm, owner, tableName).value in orm
  {
    var g := orm[|orm| - 1];
    if !(g.owner == owner && g.tableName == tableName) {
      LastGroupAtIn(orm[..|orm| - 1], owner, tableName);
    }
  }

  /** The table built for a well-formed group satisfies the table invariant. */
  lemma TableOfValid(g: TableGroup, conn: DbConfig)
    requires WellFormedGroup(g)
    ensures TableValid(g.owner, g.tableName, TableOf(g, conn), conn)
  {
    var t := TableOf(g, conn);
    TableWithHeader(g, conn, g.columns);
    TableWithLists(g, conn, g.columns);
    TableWithProperties(g, conn, g.columns);
    forall j | 0 <= j < |t.selectColumns| ensures t.selectColumnsFormatted[j] == Sanitize(t.selectColumns[j]) {
      assert g.columns[j] in g.columns;
    }
    forall j | 0 <= j < |t.selectColumnsFormatted| ensures Get(t.columns, t.selectColumnsFormatted[j]).Some? {
      LastColumnNamedFound(g.columns, j);
    }
  }

  /** One iteration keeps the model valid. */
  lemma AddGroupValid(m: DbSchema, g: TableGroup)
    requires ModelValid(m) && WellFormedGroup(g)
    ensures ModelValid(AddGroup(m, g)) && AddGroup(m, g).connection == m.connection
  {
    var s := match Get(m.schemas, g.owner) case Some(s) => s case None => Schema(g.owner, []);
    assert SchemaValid(g.owner, s, m.connection);
    TableOfValid(g, m.connection);
    var s' := s.(tables := Put(s.tables, g.tableName, TableOf(g, m.connection)));
    assert SchemaValid(g.owner, s', m.connection) by {
      forall tk | Get(s'.tables, tk).Some? ensures TableValid(g.owner, tk, Get(s'.tables, tk).value, m.connection) {
        if tk != g.tableName { assert Get(s'.tables, tk) == Get(s.tables, tk); }
      }
    }
    var m' := AddGroup(m, g);
    forall ok | Get(m'.schemas, ok).Some? ensures SchemaValid(ok, Get(m'.schemas, ok).value, m'.connection) {
      if ok != g.owner { assert Get(m'.schemas, ok) == Get(m.schemas, ok); }
    }
  }

  /** The model built from well-formed groups is valid and carries the connection it was given. */
  lemma {:induction false} BuiltValid(orm: seq<TableGroup>, conn: DbConfig)
    requires GroupsWellFormed(orm)
    ensures ModelValid(Built(orm, conn)) && Built(orm, conn).connection == conn
  {
    if |orm| > 0 {
      var init := orm[..|orm| - 1];
      assert GroupsWellFormed(init) by {
        forall i | 0 <= i < |init| ensures WellFormedGroup(init[i]) { assert init[i] == orm[i]; }
      }
      BuiltValid(init, conn);
      AddGroupValid(Built(init, conn), orm[|orm| - 1]);
    }
  }

  /**
   * Looking a table up by sanitised owner and table name finds the table of the LAST group
   * with those names: a later group overwrites an earlier one with the same sanitised key.
   */
  lemma {:induction false} LookupBuilt(orm: seq<TableGroup>, conn: DbConfig, owner: string, tableName: string)
    ensures Lookup(Built(orm, conn), owner, tableName) ==
      match LastGroupAt(orm, owner, tableName)
      case None => None
      case Some(g) => Some(TableOf(g, conn))
  {
    if |orm| > 0 {
      var init := orm[..|orm| - 1];
      LookupBuilt(init, conn, owner, tableName);
      BuiltConnection(init, conn);
    }
  }

  /** Building passes the types through: a property of a table holds the type of one of the group's columns. */
  lemma BuiltClassified(orm: seq<TableGroup>, conn: DbConfig, owner: string, tableName: string, k: string)
    requires GroupsClassified(orm)
    requires Lookup(Built(orm, conn), owner, tableName).Some?
    requires Get(Lookup(Built(orm, conn), owner, tableName).value.columns, k).Some?
    ensures IsClassified(Get(Lookup(Built(orm, conn), owner, tableName).value.columns, k).value.dataType)
  {
    LookupBuilt(orm, conn, owner, tableName);
    var g := LastGroupAt(orm, owner, tableName).value;
    LastGroupAtIn(orm, owner, tableName);
    TableWithProperties(g, conn, g.columns);
    LastColumnNamedIn(g.columns, k);
    var i :| 0 <= i < |orm| && orm[i] == g;
    var j :| 0 <= j < |g.columns| && LastColumnNamed(g.columns, k).value == ColumnDef(g.columns[j].columnNameValue, g.columns[j].dataType);
    assert IsClassified(orm[i].columns[j].dataType);
  }

  lemma {:induction false} BuiltConnection(orm: seq<TableGroup>, conn: DbConfig)
    ensures Built(orm, conn).connection == conn
  {
    if |orm| > 0 {
      BuiltConnection(orm[..|orm| - 1], conn);
    }
  }

  /** An owner appears in the model exactly when some group has that sanitised owner name. */
  lemma {:induction false} OwnersBuilt(orm: seq<TableGroup>, conn: DbConfig, owner: string)
    ensures Get(Built(orm, conn).schemas, owner).Some? <==> owner in Owners(orm)
  {
    if |orm| > 0 {
      var init := orm[..|orm| - 1];
      OwnersBuilt(init, conn, owner);
      assert Owners(orm) == Owners(init) + [orm[|orm| - 1].owner];
    }
  }

  // ---------------------------------------------------------------------------
  // The loops
  // ---------------------------------------------------------------------------

  /** One more column extends the table by that column. */
  lemma TableWithStep(g: TableGroup, conn: DbConfig, cols: seq<Column>, j: nat)
    requires j < |cols|
    ensures TableWith(g, conn, cols[..j + 1]) == AddColumn(TableWith(g, conn, cols[..j]), cols[j])
  {
    assert cols[..j + 1][..j] == cols[..j];
  }

  /** One more group extends the model by that group. */
  lemma BuiltStep(orm: seq<TableGroup>, conn: DbConfig, i: nat)
    requires i < |orm|
    ensures Built(orm[..i + 1], conn) == AddGroup(Built(orm[..i], conn), orm[i])
  {
    assert orm[..i + 1][..i] == orm[..i];
  }

  /** index.js:354-369 for one group: the table object and its columns. */
  method BuildTable(g: TableGroup, conn: DbConfig) returns (t: Table)
    ensures t == TableOf(g, conn)
  {
    t := EmptyTable(g, conn);
    var j := 0;
    while j < |g.columns|
      invariant 0 <= j <= |g.columns|
      invariant t == TableWith(g, conn, g.columns[..j])
    {
      ghost var before := t;
      var c := g.columns[j];
      t := t.(columns := Put(t.columns, c.columnName, ColumnDef(c.columnNameValue, c.dataType)));
      t := t.(selectColumns := t.selectColumns + [c.columnNameValue]);
      t := t.(selectColumnsFormatted := t.selectColumnsFormatted + [c.columnName]);
      assert t == AddColumn(before, c);
      TableWithStep(g, conn, g.columns, j);
      j := j + 1;
    }
    assert g.columns[..j] == g.columns;
  }

  /** index.js:343-372: the nested model built from `orm`, read with connection `conn`. */
  method BuildModel(orm: seq<TableGroup>, conn: DbConfig) returns (m: DbSchema)
    ensures m == Built(orm, conn)
    ensures GroupsWellFormed(orm) ==> ModelValid(m)
  {
    m := DbSchema(conn, ORACLE, []);
    var i := 0;
    while i < |orm|
      invariant 0 <= i <= |orm|
      invariant m == Built(orm[..i], conn)
    {
      BuiltConnection(orm[..i], conn);
      ghost var before := m;
      var g := orm[i];
      var s: Schema;
      match Get(m.schemas, g.owner) {
        case Some(existing) => s := existing;
        case None => s := Schema(g.owner, []);
      }
      var t := BuildTable(g, conn);
      s := s.(tables := Put(s.tables, g.tableName, t));
      m := m.(schemas := Put(m.schemas, g.owner, s));
      assert m == AddGroup(before, g);
      BuiltStep(orm, conn, i);
      i := i + 1;
    }
    assert orm[..i] == orm;
    if GroupsWellFormed(orm) {
      BuiltValid(orm, conn);
    }
  }
}
