/**
 * `generateGraphQL` (index.js:26-104) end to end: the configuration check, the database type
 * check, the catalog read into a model, the schema text for the selected owners and one root
 * function per surfaced table. The catalog rows are a parameter: running the catalog query
 * is I/O. A root function is represented by the table it was generated for; what it does
 * when called is `Resolver.Resolve` on the generated model.
 */
module Api {
  import opened Wrappers
  import opened Text
  import opened OrderedDict
  import opened Catalog
  import opened Normalizer
  import opened SchemaModel
  import opened Surface
  import opened Query
  import opened Resolver

  const INVALID_CONFIGURATION: string := "The database configuration is invalid."
  const SUPPORTED_DB_TYPE: string := "Oracle"
  const UNSUPPORTED_DB_TYPE: string := "Database type not supported: "

  /** A configuration whose three connection fields are all present (empty strings included). */
  predicate Complete(c: DbConfig)
  {
    c.user.Some? && c.password.Some? && c.connectString.Some?
  }

  /** `validateDatabaseConfig` (index.js:110-114): the configuration itself when it is usable. */
  function ValidateDatabaseConfig(config: Option<DbConfig>): (r: Result<DbConfig, string>)
    ensures r.Ok? <==> config.Some? && Complete(config.value)
    ensures r.Ok? ==> r.value == config.value
    ensures r.Err? ==> r.error == INVALID_CONFIGURATION
  {
    match config
    case None => Err(INVALID_CONFIGURATION)
    case Some(c) =>
      if c.user == None || c.password == None || c.connectString == None then Err(INVALID_CONFIGURATION)
      else Ok(c)
  }

  /** The result of `generateGraphQL`: the schema text, the root functions, and the model they read. */
  datatype Generation = Generation(schemaText: string, root: Dict<Table>, dbSchema: DbSchema)

  /** `root.<owner>_<name> = …` for each table in turn: a later table of the same type name replaces an earlier one. */
  function BindAll(root: Dict<Table>, ts: seq<Table>): Dict<Table>
  {
    if |ts| == 0 then root else Put(BindAll(root, ts[..|ts| - 1]), TypeName(ts[|ts| - 1]), ts[|ts| - 1])
  }

  function Roots(ts: seq<Table>): Dict<Table>
  {
    BindAll([], ts)
  }

  /** The last of `ts` whose type name is `k`. */
  function LastTableTyped(ts: seq<Table>, k: string): Option<Table>
  {
    if |ts| == 0 then None
    else if TypeName(ts[|ts| - 1]) == k then Some(ts[|ts| - 1])
    else LastTableTyped(ts[..|ts| - 1], k)
  }

  /**
   * What `generateGraphQL` produces from a configuration, a database type, the catalog rows
   * and a selection, with the field separator restored in the schema text. `buildSchema` is
   * not part of this model: the text as written would make it throw.
   */
  function Generated(config: Option<DbConfig>, dbType: string, catalog: seq<CatalogTuple>,
                     selected: Option<seq<string>>): Result<Generation, string>
  {
    match ValidateDatabaseConfig(config)
    case Err(e) => Err(e)
    case Ok(c) =>
      if dbType != SUPPORTED_DB_TYPE then Err(UNSUPPORTED_DB_TYPE + dbType)
      else
        var m := Built(Normalized(catalog), c);
        var ts := TablesOf(SelectedSchemas(m, selected));
        Ok(Generation(SurfaceText(ts), Roots(ts), m))
  }

  // ---------------------------------------------------------------------------
  // Properties
  // ---------------------------------------------------------------------------

  /** The call fails exactly when the configuration is unusable or the type is not `Oracle`, the configuration being checked first. */
  lemma GeneratedRejects(config: Option<DbConfig>, dbType: string, catalog: seq<CatalogTuple>, selected: Option<seq<string>>)
    ensures Generated(config, dbType, catalog, selected).Err? <==>
      !(config.Some? && Complete(config.value)) || dbType != SUPPORTED_DB_TYPE
    ensures !(config.Some? && Complete(config.value)) ==>
      Generated(config, dbType, catalog, selected) == Err(INVALID_CONFIGURATION)
    ensures config.Some? && Complete(config.value) && dbType != SUPPORTED_DB_TYPE ==>
      Generated(config, dbType, catalog, selected) == Err(UNSUPPORTED_DB_TYPE + dbType)
  {
  }

  /** Every model `generateGraphQL` builds is valid and carries the caller's configuration. */
  lemma GeneratedModelValid(config: Option<DbConfig>, dbType: string, catalog: seq<CatalogTuple>, selected: Option<seq<string>>)
    requires Generated(config, dbType, catalog, selected).Ok?
    ensures var g := Generated(config, dbType, catalog, selected).value;
      ModelValid(g.dbSchema) && g.dbSchema.connection == config.value
  {
    var orm := Normalized(catalog);
    NormalizedIsNormalForm(catalog);
    BuiltValid(orm, config.value);
  }

  /**
   * Over a catalog whose types are those the query's `CASE` produces, every property of
   * every table of the model `generateGraphQL` builds carries one of those types.
   */
  lemma GeneratedColumnTypes(config: Option<DbConfig>, dbType: string, catalog: seq<CatalogTuple>, selected: Option<seq<string>>,
                             owner: string, tableName: string, k: string)
    requires Classified(catalog)
    requires Generated(config, dbType, catalog, selected).Ok?
    requires Lookup(Generated(config, dbType, catalog, selected).value.dbSchema, owner, tableName).Some?
    requires Get(Lookup(Generated(config, dbType, catalog, selected).value.dbSchema, owner, tableName).value.columns, k).Some?
    ensures IsClassified(Get(Lookup(Generated(config, dbType, catalog, selected).value.dbSchema, owner, tableName).value.columns, k).value.dataType)
  {
    NormalizedClassified(catalog);
    BuiltClassified(Normalized(catalog), config.value, owner, tableName, k);
  }

  lemma BindAllSnoc(root: Dict<Table>, ts: seq<Table>, n: nat)
    requires n < |ts|
    ensures BindAll(root, ts[..n + 1]) == Put(BindAll(root, ts[..n]), TypeName(ts[n]), ts[n])
  {
    assert ts[..n + 1][..n] == ts[..n];
  }

  /** Binding `a` then `b` is binding `a + b`. */
  lemma {:induction false} BindAllAppend(root: Dict<Table>, a: seq<Table>, b: seq<Table>)
    ensures BindAll(root, a + b) == BindAll(BindAll(root, a), b)
  {
    if |b| == 0 {
      assert a + b == a;
    } else {
      var b0 := b[..|b| - 1];
      BindAllAppend(root, a, b0);
      assert (a + b)[..|a + b| - 1] == a + b0;
    }
  }

  /** The root function of a type name is the one of the last table with that type name. */
  lemma {:induction false} RootsLastWins(ts: seq<Table>, k: string)
    ensures Get(Roots(ts), k) == LastTableTyped(ts, k)
  {
    if |ts| > 0 {
      RootsLastWins(ts[..|ts| - 1], k);
    }
  }

  /** The last table of a type name is one of the tables, with that type name. */
  lemma {:induction false} LastTableTypedIn(ts: seq<Table>, k: string)
    ensures LastTableTyped(ts, k).Some? <==> exists i :: 0 <= i < |ts| && TypeName(ts[i]) == k
    ensures LastTableTyped(ts, k).Some? ==> LastTableTyped(ts, k).value in ts && TypeName(LastTableTyped(ts, k).value) == k
  {
    if |ts| > 0 {
      var init := ts[..|ts| - 1];
      LastTableTypedIn(init, k);
      if exists i :: 0 <= i < |init| && TypeName(init[i]) == k {
        var i :| 0 <= i < |init| && TypeName(init[i]) == k;
        assert ts[i] == init[i];
      }
      if exists i :: 0 <= i < |ts| && TypeName(ts[i]) == k {
        var i :| 0 <= i < |ts| && TypeName(ts[i]) == k;
        if i < |ts| - 1 {
          assert init[i] == ts[i];
        }
      }
    }
  }

  /** Every surfaced table has a root function under its type name, and the root functions are only those. */
  lemma RootsCoverTables(ts: seq<Table>, k: string)
    ensures Get(Roots(ts), k).Some? <==> exists i :: 0 <= i < |ts| && TypeName(ts[i]) == k
    ensures Get(Roots(ts), k).Some? ==> Get(Roots(ts), k).value in ts && TypeName(Get(Roots(ts), k).value) == k
  {
    RootsLastWins(ts, k);
    LastTableTypedIn(ts, k);
  }

  /** A table surfaced from a model is stored in it, under keys the lemma names. */
  lemma SurfacedTableInModel(m: DbSchema, selected: Option<seq<string>>, t: Table) returns (ownerKey: string, tableKey: string)
    requires ModelValid(m)
    requires t in TablesOf(SelectedSchemas(m, selected))
    ensures Get(m.schemas, ownerKey).Some? && Get(Get(m.schemas, ownerKey).value.tables, tableKey) == Some(t)
  {
    var s := SelectedSchemaHolding(m, selected, t);
    ownerKey := KeyOfValue(m.schemas, s);
    assert SchemaValid(ownerKey, s, m.connection);
    tableKey := KeyOfValue(s.tables, t);
  }

  /** The selected schema a surfaced table comes from is one of the model's schemas. */
  lemma SelectedSchemaHolding(m: DbSchema, selected: Option<seq<string>>, t: Table) returns (s: Schema)
    requires t in TablesOf(SelectedSchemas(m, selected))
    ensures s in Values(m.schemas) && t in Values(s.tables)
  {
    var ss := SelectedSchemas(m, selected);
    TablesOfMembers(ss, t);
    var i :| 0 <= i < |ss| && t in Values(ss[i].tables);
    s := ss[i];
    if selected.Some? {
      KeepNamedMembers(Values(m.schemas), selected.value, s);
    }
  }

  /**
   * Every root function `generateGraphQL` binds, for a table whose raw owner and name are
   * word-only, resolves its own table and hands `getData` a call it accepts.
   */
  lemma RootsResolve(config: Option<DbConfig>, dbType: string, catalog: seq<CatalogTuple>, selected: Option<seq<string>>,
                     k: string, args: Args, maxRows: int)
    requires Generated(config, dbType, catalog, selected).Ok?
    requires var g := Generated(config, dbType, catalog, selected).value;
      Get(g.root, k).Some? && IsWordString(Get(g.root, k).value.owner) && IsWordString(Get(g.root, k).value.name)
    ensures var g := Generated(config, dbType, catalog, selected).value;
      var t := Get(g.root, k).value;
      && TypeName(t) == k
      && Resolve(g.dbSchema, t, args).Ok?
      && Resolve(g.dbSchema, t, args).value.fromTable == TableRef(Some(t.name), Some(t.owner))
      && Resolve(g.dbSchema, t, args).value.selectColumns == t.selectColumns
      && Prepared(maxRows, Some(Resolve(g.dbSchema, t, args).value.fromTable),
                  Some(t.selectColumns), Resolve(g.dbSchema, t, args).value.whereColumns).Ok?
  {
    var g := Generated(config, dbType, catalog, selected).value;
    GeneratedModelValid(config, dbType, catalog, selected);
    var ts := TablesOf(SelectedSchemas(g.dbSchema, selected));
    RootsCoverTables(ts, k);
    var t := Get(g.root, k).value;
    var ok, tk := SurfacedTableInModel(g.dbSchema, selected, t);
    ResolvedCallAccepted(g.dbSchema, ok, tk, t, args, maxRows);
  }

  // ---------------------------------------------------------------------------
  // The steps
  // ---------------------------------------------------------------------------

  /** index.js:80-96: one root function per table of the selected owners. */
  method BindRoots(selectedTables: seq<Schema>) returns (root: Dict<Table>)
    ensures root == Roots(TablesOf(selectedTables))
  {
    root := [];
    var i := 0;
    while i < |selectedTables|
      invariant 0 <= i <= |selectedTables|
      invariant root == Roots(TablesOf(selectedTables[..i]))
    {
      var ts := Values(selectedTables[i].tables);
      ghost var root0 := root;
      var j := 0;
      while j < |ts|
        invariant 0 <= j <= |ts|
        invariant root == BindAll(root0, ts[..j])
      {
        var table := ts[j];
        root := Put(root, table.owner + "_" + table.name, table);
        BindAllSnoc(root0, ts, j);
        j := j + 1;
      }
      assert ts[..j] == ts;
      TablesOfSnoc(selectedTables, i);
      BindAllAppend([], TablesOf(selectedTables[..i]), ts);
      i := i + 1;
    }
    assert selectedTables[..i] == selectedTables;
  }

  /** `generateGraphQL(dbConfig, dbType, selectedSchemas)` over the catalog rows `catalog`. */
  method GenerateGraphQL(config: Option<DbConfig>, dbType: string, catalog: seq<CatalogTuple>,
                         selected: Option<seq<string>>) returns (r: Result<Generation, string>)
    ensures r == Generated(config, dbType, catalog, selected)
  {
    var valid := ValidateDatabaseConfig(config);
    if valid.Err? {
      return Err(valid.error);
    }
    if dbType != SUPPORTED_DB_TYPE {
      return Err(UNSUPPORTED_DB_TYPE + dbType);
    }
    var orm := Normalize(catalog);
    var dbSchema := BuildModel(orm, valid.value);
    var graphqlSchema := GenerateSurface(dbSchema, selected);
    var root := BindRoots(SelectedSchemas(dbSchema, selected));
    r := Ok(Generation(graphqlSchema, root, dbSchema));
  }
}
