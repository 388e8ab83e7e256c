/**
 * What the root function generated for a table does when GraphQL calls it (index.js:83-93,
 * 106-108): it reads its arguments under the table's sanitised column names, looks its table
 * up in the model by the table's raw owner and name, adds one `AND` filter per non-null
 * argument, and calls `findAll`, which hands the table's connection, names and select list
 * to `getData`.
 */
module Resolver {
  import opened Wrappers
  import opened Text
  import opened OrderedDict
  import opened SchemaModel
  import opened Query

  /** The arguments of one GraphQL call; an absent argument reads as `null`. */
  type Args = map<string, Scalar>

  /** The `TypeError`s the generated code raises when a property path reads through `undefined`. */
  datatype ResolveError = UndefinedTable | UndefinedColumn(column: string)

  /** The arguments `findAll` passes on to `getData`. */
  datatype FindAllCall = FindAllCall(
    connection: DbConfig,
    fromTable: TableRef,
    selectColumns: seq<string>,
    whereColumns: Option<seq<Filter>>)

  function Arg(args: Args, k: string): Scalar
  {
    if k in args then args[k] else Null
  }

  /** The columns among `cols` whose argument is non-null, in order. */
  function Present(args: Args, cols: seq<string>): (ps: seq<string>)
    ensures |ps| <= |cols|
  {
    if |cols| == 0 then []
    else Present(args, cols[..|cols| - 1]) + (if Arg(args, cols[|cols| - 1]) != Null then [cols[|cols| - 1]] else [])
  }

  /** The `whereColumns` list built from `cols` against the table `found`. */
  function CollectFilters(args: Args, found: Table, cols: seq<string>): Result<seq<Filter>, ResolveError>
  {
    if |cols| == 0 then Ok([])
    else
      match CollectFilters(args, found, cols[..|cols| - 1])
      case Err(e) => Err(e)
      case Ok(fs) =>
        var c := cols[|cols| - 1];
        if Arg(args, c) == Null then Ok(fs)
        else
          match Get(found.columns, c)
          case None => Err(UndefinedColumn(c))
          case Some(d) => Ok(fs + [Filter(d, Arg(args, c), "AND")])
  }

  /** The root function of table `t` in model `m`, called with `args`. */
  function Resolve(m: DbSchema, t: Table, args: Args): Result<FindAllCall, ResolveError>
  {
    match Lookup(m, t.owner, t.name)
    case None => Err(UndefinedTable)
    case Some(found) =>
      match CollectFilters(args, found, t.selectColumnsFormatted)
      case Err(e) => Err(e)
      case Ok(fs) =>
        Ok(FindAllCall(found.connection, TableRef(Some(found.name), Some(found.owner)), found.selectColumns,
                       if |fs| > 0 then Some(fs) else None))
  }

  // ---------------------------------------------------------------------------
  // Properties
  // ---------------------------------------------------------------------------

  /**
   * One filter per non-null argument, in column order: it carries the argument's value, the
   * column's property and the operation `AND`.
   */
  lemma {:induction false} FiltersFollowArguments(args: Args, found: Table, cols: seq<string>)
    requires CollectFilters(args, found, cols).Ok?
    ensures var fs := CollectFilters(args, found, cols).value;
      var ps := Present(args, cols);
      && |fs| == |ps|
      && forall k :: 0 <= k < |fs| ==>
           && fs[k].value == Arg(args, ps[k]) && fs[k].value != Null
           && fs[k].operation == "AND"
           && Get(found.columns, ps[k]) == Some(fs[k].column)
  {
    if |cols| > 0 {
      FiltersFollowArguments(args, found, cols[..|cols| - 1]);
    }
  }

  /** When the table has a property for every listed column, collecting the filters cannot fail. */
  lemma {:induction false} FiltersDefined(args: Args, found: Table, cols: seq<string>)
    requires forall i :: 0 <= i < |cols| ==> Get(found.columns, cols[i]).Some?
    ensures CollectFilters(args, found, cols).Ok?
  {
    if |cols| > 0 {
      FiltersDefined(args, found, cols[..|cols| - 1]);
    }
  }

  /** Only the arguments named by the listed columns are read. */
  lemma {:induction false} OnlyListedArgumentsRead(args: Args, args': Args, found: Table, cols: seq<string>)
    requires forall i :: 0 <= i < |cols| ==> Arg(args, cols[i]) == Arg(args', cols[i])
    ensures CollectFilters(args, found, cols) == CollectFilters(args', found, cols)
  {
    if |cols| > 0 {
      OnlyListedArgumentsRead(args, args', found, cols[..|cols| - 1]);
    }
  }

  /** With no non-null argument there are no filters. */
  lemma {:induction false} NoArgumentsNoFilters(args: Args, found: Table, cols: seq<string>)
    requires forall i :: 0 <= i < |cols| ==> Arg(args, cols[i]) == Null
    ensures CollectFilters(args, found, cols) == Ok([])
  {
    if |cols| > 0 {
      NoArgumentsNoFilters(args, found, cols[..|cols| - 1]);
    }
  }

  /**
   * The lookup by raw owner and table name finds a table of a valid model exactly when both
   * raw names are already word-only, and then finds that table itself; otherwise it finds nothing.
   */
  lemma LookupFindsItself(m: DbSchema, ownerKey: string, tableKey: string, t: Table)
    requires ModelValid(m)
    requires Get(m.schemas, ownerKey).Some? && Get(Get(m.schemas, ownerKey).value.tables, tableKey) == Some(t)
    ensures Lookup(m, t.owner, t.name).Some? <==> IsWordString(t.owner) && IsWordString(t.name)
    ensures IsWordString(t.owner) && IsWordString(t.name) ==> Lookup(m, t.owner, t.name) == Some(t)
  {
    var s := Get(m.schemas, ownerKey).value;
    assert TableValid(ownerKey, tableKey, t, m.connection);
    if IsWordString(t.owner) && IsWordString(t.name) {
      SanitizeFixedPoint(t.owner);
      SanitizeFixedPoint(t.name);
    }
    if Lookup(m, t.owner, t.name).Some? {
      var s' := Get(m.schemas, t.owner).value;
      assert SchemaValid(t.owner, s', m.connection);
      var found := Get(s'.tables, t.name).value;
      assert TableValid(t.owner, t.name, found, m.connection);
      assert IsWordString(Sanitize(found.owner)) && IsWordString(Sanitize(found.name));
    }
  }

  /**
   * A call on a table of a valid model whose raw names are word-only always reaches `getData`
   * with arguments it accepts: a `whereColumns` list is never empty.
   */
  lemma ResolvedCallAccepted(m: DbSchema, ownerKey: string, tableKey: string, t: Table, args: Args, maxRows: int)
    requires ModelValid(m)
    requires Get(m.schemas, ownerKey).Some? && Get(Get(m.schemas, ownerKey).value.tables, tableKey) == Some(t)
    requires IsWordString(t.owner) && IsWordString(t.name)
    ensures Resolve(m, t, args).Ok?
    ensures var call := Resolve(m, t, args).value;
      && call.whereColumns != Some([])
      && call.fromTable == TableRef(Some(t.name), Some(t.owner))
      && call.selectColumns == t.selectColumns
      && Prepared(maxRows, Some(call.fromTable), Some(call.selectColumns), call.whereColumns).Ok?
  {
    LookupFindsItself(m, ownerKey, tableKey, t);
    assert TableValid(ownerKey, tableKey, t, m.connection);
    FiltersDefined(args, t, t.selectColumnsFormatted);
  }

  // ---------------------------------------------------------------------------
  // The pushes
  // ---------------------------------------------------------------------------

  /** index.js:84-89: one push per non-null argument, in column order. */
  method BuildWhereColumns(args: Args, found: Table, cols: seq<string>) returns (r: Result<seq<Filter>, ResolveError>)
    ensures r == CollectFilters(args, found, cols)
  {
    var whereColumns: seq<Filter> := [];
    var i := 0;
    while i < |cols|
      invariant 0 <= i <= |cols|
      invariant CollectFilters(args, found, cols[..i]) == Ok(whereColumns)
    {
      assert cols[..i + 1][..i] == cols[..i];
      var column := cols[i];
      if column in args && args[column] != Null {
        match Get(found.columns, column) {
          case None =>
            assert CollectFilters(args, found, cols[..i + 1]) == Err(UndefinedColumn(column));
            FirstErrorStays(args, found, cols, i + 1);
            return Err(UndefinedColumn(column));
          case Some(d) =>
            whereColumns := whereColumns + [Filter(d, args[column], "AND")];
        }
      }
      i := i + 1;
    }
    assert cols[..i] == cols;
    r := Ok(whereColumns);
  }

  /** An error while collecting a prefix is the error of the whole list. */
  lemma {:induction false} FirstErrorStays(args: Args, found: Table, cols: seq<string>, n: nat)
    requires n <= |cols| && CollectFilters(args, found, cols[..n]).Err?
    ensures CollectFilters(args, found, cols) == CollectFilters(args, found, cols[..n])
  {
    if n < |cols| {
      assert cols[..|cols| - 1][..n] == cols[..n];
      FirstErrorStays(args, found, cols[..|cols| - 1], n);
    } else {
      assert cols[..n] == cols;
    }
  }
}
