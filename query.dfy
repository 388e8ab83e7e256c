/**
 * The statement `getData` prepares before it opens a connection (index.js:127-176): the
 * argument checks, the anonymous PL/SQL block that opens a cursor over the selected columns
 * with a row cap and the optional filters, and the bind-variable object. The row cap is the
 * process-wide `maxRows` that `setMaxRows` changes (index.js:9-13).
 */
module Query {
  import opened Wrappers
  import opened Text
  import opened SchemaModel

  /** A GraphQL argument or column value: `null`/`undefined`, a number, or a string. */
  datatype Scalar = Null | Number(n: real) | Str(s: string)

  /** One element of `whereColumns`: `{column, value, operation}`. */
  datatype Filter = Filter(column: ColumnDef, value: Scalar, operation: string)

  /** `fromTable`: `{name, owner}`, either of which may be missing. */
  datatype TableRef = TableRef(name: Option<string>, owner: Option<string>)

  /** A bind variable: the output cursor, or an input value. */
  datatype BindVar = CursorOut | In(value: Scalar)

  /** The query text and the bind-variable object handed to `connection.execute`. */
  datatype Statement = Statement(text: string, binds: map<string, BindVar>)

  /** The two rejections in index.js:128-134. */
  datatype QueryError = InvalidFromTable | InvalidWhereColumns

  const DEFAULT_MAX_ROWS: int := 200
  const CURSOR: string := "cursor"
  const HEAD: string := "BEGIN OPEN :cursor FOR SELECT "
  const TAIL: string := "; END;"

  // ---------------------------------------------------------------------------
  // The statement, as a function of its inputs
  // ---------------------------------------------------------------------------

  /** The bind name of filter `i`: its raw column name followed by `i` in decimal. */
  function BindName(c: ColumnDef, i: nat): string
  {
    c.name + NatToString(i)
  }

  /** `STRING` columns are matched with `LIKE`, all others with `=`. */
  function Comparison(c: ColumnDef): string
  {
    if c.dataType == "STRING" then " LIKE :" else " = :"
  }

  /** The SQL comparison of a filter, without its connective: `name LIKE :bind` or `name = :bind`. */
  function Comparand(f: Filter, i: nat): string
  {
    f.column.name + Comparison(f.column) + BindName(f.column, i)
  }

  /** What precedes comparison `i`: a space, and for all but the first its operation and a space. */
  function Connective(fs: seq<Filter>, i: nat): string
    requires i < |fs|
  {
    if i == 0 then " " else " " + fs[i].operation + " "
  }

  /** The text index.js:155-165 adds for filter `i`. */
  function Clause(fs: seq<Filter>, i: nat): string
    requires i < |fs|
  {
    Connective(fs, i) + Comparand(fs[i], i)
  }

  /** The clauses of the first `n` filters. */
  function Clauses(fs: seq<Filter>, n: nat): string
    requires n <= |fs|
  {
    if n == 0 then "" else Clauses(fs, n - 1) + Clause(fs, n - 1)
  }

  /** `bindVars` after the first `n` filters have been bound (index.js:136-138, 166-167). */
  function Binds(fs: seq<Filter>, n: nat): map<string, BindVar>
    requires n <= |fs|
  {
    if n == 0 then map[CURSOR := CursorOut]
    else Binds(fs, n - 1)[BindName(fs[n - 1].column, n - 1) := In(fs[n - 1].value)]
  }

  function RowCap(maxRows: int): string
  {
    " WHERE (ROWNUM <= " + IntToString(maxRows) + ")"
  }

  /** The filters inside ` AND (...)`, or nothing when there are none. */
  function FilterPart(whereColumns: Option<seq<Filter>>): string
  {
    match whereColumns
    case None => ""
    case Some(fs) => " AND (" + Clauses(fs, |fs|) + ")"
  }

  function WherePart(maxRows: int, whereColumns: Option<seq<Filter>>): string
  {
    RowCap(maxRows) + FilterPart(whereColumns)
  }

  /** The block up to the table name. */
  function SelectPart(owner: string, name: string, selectColumns: seq<string>): string
  {
    HEAD + Join(selectColumns, ",") + " FROM " + owner + "." + name
  }

  function QueryText(maxRows: int, owner: string, name: string, selectColumns: seq<string>, whereColumns: Option<seq<Filter>>): string
  {
    SelectPart(owner, name, selectColumns) + WherePart(maxRows, whereColumns) + TAIL
  }

  /** The checks of index.js:128-134, in their order. */
  function Check(fromTable: Option<TableRef>, selectColumns: Option<seq<string>>, whereColumns: Option<seq<Filter>>): Option<QueryError>
  {
    if fromTable.None? || fromTable.value.name.None? || fromTable.value.owner.None?
       || selectColumns.None? || |selectColumns.value| == 0 then Some(InvalidFromTable)
    else if whereColumns.Some? && |whereColumns.value| == 0 then Some(InvalidWhereColumns)
    else None
  }

  /** What `getData` prepares with row cap `maxRows`, or why it rejects its arguments. */
  function Prepared(maxRows: int, fromTable: Option<TableRef>, selectColumns: Option<seq<string>>, whereColumns: Option<seq<Filter>>): Result<Statement, QueryError>
  {
    match Check(fromTable, selectColumns, whereColumns)
    case Some(e) => Err(e)
    case None =>
      var binds := match whereColumns case None => map[CURSOR := CursorOut] case Some(fs) => Binds(fs, |fs|);
      Ok(Statement(QueryText(maxRows, fromTable.value.owner.value, fromTable.value.name.value, selectColumns.value, whereColumns), binds))
  }

  // ---------------------------------------------------------------------------
  // Properties
  // ---------------------------------------------------------------------------

  /** The rejections happen exactly in the three documented cases, a bad table reference first. */
  lemma PreparedRejects(maxRows: int, fromTable: Option<TableRef>, selectColumns: Option<seq<string>>, whereColumns: Option<seq<Filter>>)
    ensures var r := Prepared(maxRows, fromTable, selectColumns, whereColumns);
      && (r == Err(InvalidFromTable) <==>
            fromTable.None? || fromTable.value.name.None? || fromTable.value.owner.None?
            || selectColumns.None? || selectColumns.value == [])
      && (r == Err(InvalidWhereColumns) <==>
            fromTable.Some? && fromTable.value.name.Some? && fromTable.value.owner.Some?
            && selectColumns.Some? && selectColumns.value != [] && whereColumns == Some([]))
  {
  }

  /**
   * Every accepted statement opens the cursor, selects the columns from `owner.name`, caps
   * the rows whether or not there are filters, and ends the block.
   */
  lemma StatementShape(maxRows: int, owner: string, name: string, cols: seq<string>, whereColumns: Option<seq<Filter>>)
    requires cols != [] && whereColumns != Some([])
    ensures var r := Prepared(maxRows, Some(TableRef(Some(name), Some(owner))), Some(cols), whereColumns);
      && r.Ok?
      && StartsWith(r.value.text, SelectPart(owner, name, cols) + RowCap(maxRows))
      && EndsWith(r.value.text, TAIL)
  {
    PreparedText(maxRows, owner, name, cols, whereColumns);
    QueryTextParts(maxRows, owner, name, cols, whereColumns);
    PrefixOfConcat(SelectPart(owner, name, cols) + RowCap(maxRows), FilterPart(whereColumns) + TAIL);
    SuffixOfConcat(SelectPart(owner, name, cols) + WherePart(maxRows, whereColumns), TAIL);
  }

  /** Without filters the text is exactly the select part, the row cap and the end of the block. */
  lemma UnfilteredStatement(maxRows: int, owner: string, name: string, cols: seq<string>)
    requires cols != []
    ensures var r := Prepared(maxRows, Some(TableRef(Some(name), Some(owner))), Some(cols), None);
      && r.Ok?
      && r.value.text == HEAD + Join(cols, ",") + " FROM " + owner + "." + name + RowCap(maxRows) + TAIL
      && r.value.binds == map[CURSOR := CursorOut]
  {
    PreparedText(maxRows, owner, name, cols, None);
    assert FilterPart(None) == "";
  }

  lemma PreparedText(maxRows: int, owner: string, name: string, cols: seq<string>, whereColumns: Option<seq<Filter>>)
    requires cols != [] && whereColumns != Some([])
    ensures var r := Prepared(maxRows, Some(TableRef(Some(name), Some(owner))), Some(cols), whereColumns);
      r.Ok? && r.value.text == QueryText(maxRows, owner, name, cols, whereColumns)
  {
  }

  lemma QueryTextParts(maxRows: int, owner: string, name: string, cols: seq<string>, whereColumns: Option<seq<Filter>>)
    ensures QueryText(maxRows, owner, name, cols, whereColumns)
      == (SelectPart(owner, name, cols) + RowCap(maxRows)) + (FilterPart(whereColumns) + TAIL)
  {
  }

  predicate EndsWith(s: string, suffix: string) { |suffix| <= |s| && s[|s| - |suffix|..] == suffix }

  lemma PrefixOfConcat(a: string, b: string)
    ensures StartsWith(a + b, a)
  {
    assert (a + b)[..|a|] == a;
  }

  lemma SuffixOfConcat(a: string, b: string)
    ensures EndsWith(a + b, b)
  {
    assert (a + b)[|a|..] == b;
  }

  /** The selected columns can be read back from the select list when none of them contains a comma. */
  lemma SelectListRoundTrip(cols: seq<string>)
    requires cols != [] && forall i :: 0 <= i < |cols| ==> ',' !in cols[i]
    ensures Split(Join(cols, ","), ',') == cols
  {
    SplitJoin(cols, ',');
  }

  function Comparands(fs: seq<Filter>, n: nat): (cs: seq<string>)
    requires n <= |fs|
    ensures |cs| == n && forall i :: 0 <= i < n ==> cs[i] == Comparand(fs[i], i)
  {
    if n == 0 then [] else Comparands(fs, n - 1) + [Comparand(fs[n - 1], n - 1)]
  }

  /** When every operation is `AND`, the clauses are the comparisons joined by ` AND `, after one space. */
  lemma {:induction false} ClausesAreConjunction(fs: seq<Filter>, n: nat)
    requires 1 <= n <= |fs|
    requires forall i :: 0 <= i < |fs| ==> fs[i].operation == "AND"
    ensures Clauses(fs, n) == " " + Join(Comparands(fs, n), " AND ")
  {
    if n > 1 {
      ClausesAreConjunction(fs, n - 1);
      ClauseWithAnd(fs, n - 1);
      ComparandsSnoc(fs, n);
      ShiftSpace(Join(Comparands(fs, n - 1), " AND "), Comparand(fs[n - 1], n - 1));
    }
  }

  lemma ClauseWithAnd(fs: seq<Filter>, i: nat)
    requires 0 < i < |fs| && fs[i].operation == "AND"
    ensures Clause(fs, i) == " AND " + Comparand(fs[i], i)
  {
  }

  lemma ComparandsSnoc(fs: seq<Filter>, n: nat)
    requires 1 < n <= |fs|
    ensures Join(Comparands(fs, n), " AND ") == Join(Comparands(fs, n - 1), " AND ") + " AND " + Comparand(fs[n - 1], n - 1)
  {
    assert Comparands(fs, n)[..n - 1] == Comparands(fs, n - 1);
  }

  /** Proof step: regrouping a concatenation, stated apart to keep the loop proof small. */
  lemma ShiftSpace(j: string, c: string)
    ensures (" " + j) + (" AND " + c) == " " + (j + " AND " + c)
  {
  }

  /** The cursor binding is never overwritten by a filter's binding. */
  lemma {:induction false} CursorKept(fs: seq<Filter>, n: nat)
    requires n <= |fs|
    ensures CURSOR in Binds(fs, n) && Binds(fs, n)[CURSOR] == CursorOut
  {
    if n > 0 {
      CursorKept(fs, n - 1);
      var b := BindName(fs[n - 1].column, n - 1);
      assert IsDigit(b[|b| - 1]);
      assert b != CURSOR;
    }
  }

  /** The bound names are the cursor and one name per filter; each is bound to the last filter with that name. */
  lemma {:induction false} BindsKeys(fs: seq<Filter>, n: nat)
    requires n <= |fs|
    ensures Binds(fs, n).Keys == {CURSOR} + set i | 0 <= i < n :: BindName(fs[i].column, i)
  {
    if n > 0 {
      BindsKeys(fs, n - 1);
      var s1 := set i | 0 <= i < n - 1 :: BindName(fs[i].column, i);
      var s2 := set i | 0 <= i < n :: BindName(fs[i].column, i);
      assert s2 == s1 + {BindName(fs[n - 1].column, n - 1)};
    }
  }

  /** Filter `i` is bound to its value unless a later filter produces the same bind name. */
  lemma {:induction false} BindsValue(fs: seq<Filter>, n: nat, i: nat)
    requires i < n <= |fs|
    requires forall j :: i < j < n ==> BindName(fs[j].column, j) != BindName(fs[i].column, i)
    ensures BindName(fs[i].column, i) in Binds(fs, n) && Binds(fs, n)[BindName(fs[i].column, i)] == In(fs[i].value)
  {
    if i < n - 1 {
      BindsValue(fs, n - 1, i);
    }
  }

  /** When no raw column name ends in a digit the bind names are all distinct, so every filter keeps its value. */
  lemma BindsPositional(fs: seq<Filter>)
    requires forall i :: 0 <= i < |fs| ==> !EndsWithDigit(fs[i].column.name)
    ensures forall i :: 0 <= i < |fs| ==>
      BindName(fs[i].column, i) in Binds(fs, |fs|) && Binds(fs, |fs|)[BindName(fs[i].column, i)] == In(fs[i].value)
  {
    forall i | 0 <= i < |fs|
      ensures BindName(fs[i].column, i) in Binds(fs, |fs|) && Binds(fs, |fs|)[BindName(fs[i].column, i)] == In(fs[i].value)
    {
      forall j | i < j < |fs| ensures BindName(fs[j].column, j) != BindName(fs[i].column, i) {
        if BindName(fs[j].column, j) == BindName(fs[i].column, i) {
          NameNumberInjective(fs[j].column.name, j, fs[i].column.name, i);
        }
      }
      BindsKeys(fs, |fs|);
      BindsValue(fs, |fs|, i);
    }
  }

  /** A column whose raw name ends in a digit can share a bind name with a later filter: `A1` at 0 and `A` at 10. */
  lemma BindNameCollision()
    ensures BindName(ColumnDef("A1", "NUMBER"), 0) == BindName(ColumnDef("A", "NUMBER"), 10)
  {
    assert NatToString(10) == "10";
  }

  /** Two filters, on a `STRING` column `A` and a `NUMBER` column `B`, as the statement text shows them. */
  lemma TwoFilterExample(fs: seq<Filter>)
    requires |fs| == 2 && fs[0].column == ColumnDef("A", "STRING")
    requires fs[1].column == ColumnDef("B", "NUMBER") && fs[1].operation == "AND"
    ensures FilterPart(Some(fs)) == " AND ( A LIKE :A0 AND B = :B1)"
  {
    ExampleClauses(fs);
    ExampleFilterPart(Clauses(fs, 2));
  }

  lemma ExampleFilterPart(x: string)
    requires x == " A LIKE :A0 AND B = :B1"
    ensures " AND (" + x + ")" == " AND ( A LIKE :A0 AND B = :B1)"
  {
  }

  lemma ExampleClauses(fs: seq<Filter>)
    requires |fs| == 2 && fs[0].column == ColumnDef("A", "STRING")
    requires fs[1].column == ColumnDef("B", "NUMBER") && fs[1].operation == "AND"
    ensures Clauses(fs, 2) == " A LIKE :A0 AND B = :B1"
  {
    ClauseA(fs);
    ClauseB(fs);
    assert Clauses(fs, 1) == "" + Clause(fs, 0);
    ExampleJoin(Clauses(fs, 1), Clause(fs, 1));
  }

  lemma ClauseA(fs: seq<Filter>)
    requires |fs| == 2 && fs[0].column == ColumnDef("A", "STRING")
    ensures Clause(fs, 0) == " A LIKE :A0"
  {
    ComparandA(fs[0]);
  }

  lemma ClauseB(fs: seq<Filter>)
    requires |fs| == 2 && fs[1].column == ColumnDef("B", "NUMBER") && fs[1].operation == "AND"
    ensures Clause(fs, 1) == " AND B = :B1"
  {
    ComparandB(fs[1]);
  }

  /** Proof step for `TwoFilterExample`: the two clauses joined. */
  lemma ExampleJoin(x: string, y: string)
    requires x == "" + " A LIKE :A0" && y == " AND B = :B1"
    ensures x + y == " A LIKE :A0 AND B = :B1"
  {
  }

  /** Proof step for `TwoFilterExample`: the positions 0 and 1 rendered. */
  lemma DigitsOfSmall()
    ensures NatToString(0) == "0" && NatToString(1) == "1"
  {
  }

  lemma ComparandA(f: Filter)
    requires f.column == ColumnDef("A", "STRING")
    ensures Comparand(f, 0) == "A LIKE :A0"
  {
    DigitsOfSmall();
  }

  lemma ComparandB(f: Filter)
    requires f.column == ColumnDef("B", "NUMBER")
    ensures Comparand(f, 1) == "B = :B1"
  {
    DigitsOfSmall();
  }

  // ---------------------------------------------------------------------------
  // The process-wide row cap and the statement builder
  // ---------------------------------------------------------------------------

  /** The module scope of index.js that holds `maxRows`. */
  class Session {
    var maxRows: int

    /** `var maxRows = 200;` */
    constructor()
      ensures maxRows == DEFAULT_MAX_ROWS
    {
      maxRows := DEFAULT_MAX_ROWS;
    }

    /** `setMaxRows(val)`: later statements cap their rows at `val`. */
    method SetMaxRows(val: int)
      modifies this
      ensures maxRows == val
    {
      maxRows := val;
    }

    /** index.js:128-176: the checks, then the text and the binds, built up one piece at a time. */
    method PrepareStatement(fromTable: Option<TableRef>, selectColumns: Option<seq<string>>, whereColumns: Option<seq<Filter>>)
      returns (r: Result<Statement, QueryError>)
      ensures r == Prepared(maxRows, fromTable, selectColumns, whereColumns)
    {
      if fromTable.None? || fromTable.value.name.None? || fromTable.value.owner.None?
         || selectColumns.None? || |selectColumns.value| == 0 {
        return Err(InvalidFromTable);
      }
      if whereColumns.Some? && |whereColumns.value| == 0 {
        return Err(InvalidWhereColumns);
      }
      var cols := selectColumns.value;
      var owner := fromTable.value.owner.value;
      var name := fromTable.value.name.value;
      var query := HEAD;
      query := AppendSelectList(query, cols);
      query := query + " FROM " + owner + "." + name;
      var binds: map<string, BindVar>;
      match whereColumns {
        case None =>
          query := query + RowCap(maxRows);
          binds := map[CURSOR := CursorOut];
          assert RowCap(maxRows) == WherePart(maxRows, None);
        case Some(fs) =>
          ghost var base := query;
          query, binds := AppendConditions(query, fs);
          query := query + ")";
          WhereAlgebra(base, RowCap(maxRows), " AND (", Clauses(fs, |fs|), ")");
      }
      query := query + TAIL;
      assert query == QueryText(maxRows, owner, name, cols, whereColumns);
      assert Check(fromTable, selectColumns, whereColumns).None?;
      r := Ok(Statement(query, binds));
    }

    /** index.js:153-168: the row cap, the clauses and their bindings, one filter at a time. */
    method AppendConditions(query0: string, fs: seq<Filter>) returns (query: string, binds: map<string, BindVar>)
      requires |fs| > 0
      ensures query == query0 + (RowCap(maxRows) + " AND (") + Clauses(fs, |fs|)
      ensures binds == Binds(fs, |fs|)
    {
      query := query0;
      binds := map[CURSOR := CursorOut];
      var k := 0;
      while k < |fs|
        invariant 0 <= k <= |fs|
        invariant query == query0 + (if k == 0 then "" else RowCap(maxRows) + " AND (") + Clauses(fs, k)
        invariant binds == Binds(fs, k)
      {
        ghost var before := query;
        if k == 0 {
          query := query + RowCap(maxRows) + " AND (";
        } else {
          query := query + " " + fs[k].operation;
        }
        ghost var connected := query;
        var c := fs[k].column;
        // index.js:161-165: `LIKE` for a `STRING` column, `=` for any other.
        query := query + " " + c.name + Comparison(c) + c.name + NatToString(k);
        ConditionLoopStep(query0, before, connected, query, fs, k, RowCap(maxRows));
        BindsStep(fs, k);
        binds := binds[c.name + NatToString(k) := In(fs[k].value)];
        k := k + 1;
      }
    }
  }

  /** Binding filter `k` adds its value under its bind name. */
  lemma BindsStep(fs: seq<Filter>, k: nat)
    requires k < |fs|
    ensures Binds(fs, k + 1) == Binds(fs, k)[fs[k].column.name + NatToString(k) := In(fs[k].value)]
  {
  }

  /** The text the loop body appends for one comparison is a space and the comparison. */
  lemma AppendedComparand(q: string, fs: seq<Filter>, k: nat)
    requires k < |fs|
    ensures var c := fs[k].column; q + " " + c.name + Comparison(c) + c.name + NatToString(k) == q + " " + Comparand(fs[k], k)
  {
  }

  /** The states of one iteration of the condition loop: the text grows by the next clause. */
  lemma ConditionLoopStep(query0: string, before: string, connected: string, after: string, fs: seq<Filter>, k: nat, cap: string)
    requires k < |fs|
    requires before == query0 + (if k == 0 then "" else cap + " AND (") + Clauses(fs, k)
    requires connected == if k == 0 then before + cap + " AND (" else before + " " + fs[k].operation
    requires var c := fs[k].column; after == connected + " " + c.name + Comparison(c) + c.name + NatToString(k)
    ensures after == query0 + (if k + 1 == 0 then "" else cap + " AND (") + Clauses(fs, k + 1)
  {
    AppendedComparand(connected, fs, k);
    ConditionStep(query0, before, fs, k, cap);
  }

  /** One iteration of the condition loop extends the clauses by one. */
  lemma ConditionStep(query0: string, before: string, fs: seq<Filter>, k: nat, cap: string)
    requires k < |fs|
    requires before == query0 + (if k == 0 then "" else cap + " AND (") + Clauses(fs, k)
    ensures (if k == 0 then before + cap + " AND (" else before + " " + fs[k].operation) + " " + Comparand(fs[k], k)
      == query0 + (if k + 1 == 0 then "" else cap + " AND (") + Clauses(fs, k + 1)
  {
    assert Clauses(fs, k + 1) == Clauses(fs, k) + Clause(fs, k);
    if k == 0 {
      FirstAlgebra(query0, cap, " AND (", " ", Comparand(fs[k], k));
    } else {
      StepAlgebra(query0, cap, " AND (", Clauses(fs, k), " ", fs[k].operation, Comparand(fs[k], k));
    }
  }

  /** Proof step: regrouping the `WHERE` text, stated apart to keep the method proofs small. */
  lemma WhereAlgebra(sp: string, cap: string, open: string, cl: string, close: string)
    ensures ((sp + (cap + open)) + cl) + close == sp + (cap + ((open + cl) + close))
  {
  }

  /** Proof step: regrouping after one more clause, stated apart to keep the loop proof small. */
  lemma StepAlgebra(q0: string, cap: string, open: string, ck: string, sp: string, op: string, cmp: string)
    ensures ((((q0 + (cap + open)) + ck) + sp + op) + sp) + cmp == (q0 + (cap + open)) + (ck + (((sp + op) + sp) + cmp))
  {
  }

  /** Proof step: regrouping after the first clause, stated apart to keep the loop proof small. */
  lemma FirstAlgebra(q0: string, cap: string, open: string, sp: string, cmp: string)
    ensures (((q0 + cap) + open) + sp) + cmp == (q0 + (cap + open)) + ("" + (sp + cmp))
  {
  }

  /** index.js:143-149: the columns, separated by commas. */
  method AppendSelectList(query0: string, cols: seq<string>) returns (query: string)
    ensures query == query0 + Join(cols, ",")
  {
    query := query0;
    var i := 0;
    while i < |cols|
      invariant 0 <= i <= |cols|
      invariant query == query0 + Join(cols[..i], ",") + (if 0 < i < |cols| then "," else "")
    {
      SelectStep(cols, i);
      query := query + cols[i];
      if i + 1 < |cols| {
        query := query + ",";
      }
      i := i + 1;
    }
    assert cols[..i] == cols;
  }

  /** One step of the select-list loop. */
  lemma SelectStep(cols: seq<string>, i: nat)
    requires i < |cols|
    ensures Join(cols[..i + 1], ",") == (if i == 0 then cols[0] else Join(cols[..i], ",") + "," + cols[i])
  {
    assert cols[..i + 1][..i] == cols[..i];
  }
}
