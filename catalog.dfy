/**
 * The part of the catalog introspection that is logic rather than database execution:
 * the `CASE` that sorts Oracle `DATA_TYPE` tags into `STRING` or `NUMBER`, the
 * identifier filter `REGEXP_INSTR(name, '[^[:alnum:]_*]') = 0`, the other conditions on a
 * row of `ALL_TAB_COLUMNS`, and the record each selected row becomes.
 */
module Catalog {
  import opened Text

  // ---------------------------------------------------------------------------
  // SQL LIKE
  // ---------------------------------------------------------------------------

  /** `s LIKE p` with `%` (any run of characters) and `_` (exactly one character), no escape. */
  function Like(s: string, p: string): bool
    decreases |s| + |p|
  {
    if p == [] then s == []
    else if p[0] == '%' then Like(s, p[1..]) || (s != [] && Like(s[1..], p))
    else if s == [] then false
    else (p[0] == '_' || p[0] == s[0]) && Like(s[1..], p[1..])
  }

  predicate NoWildcards(p: string) { '%' !in p && '_' !in p }

  /** A pattern without wildcards matches exactly itself. */
  lemma {:induction false} LikeLiteral(s: string, lit: string)
    requires NoWildcards(lit)
    ensures Like(s, lit) <==> s == lit
  {
    if lit != [] && s != [] {
      assert lit[0] in lit;
      LikeLiteral(s[1..], lit[1..]);
      if s[1..] == lit[1..] && s[0] == lit[0] {
        assert s == [s[0]] + s[1..] && lit == [lit[0]] + lit[1..];
      }
    }
  }

  /** A lone `%` matches every string. */
  lemma {:induction false} LikeAnything(s: string)
    ensures Like(s, "%")
  {
    assert Like(s, "%"[1..]) <==> s == [];
    if s != [] {
      LikeAnything(s[1..]);
    }
  }

  /** `s LIKE 'X%'` for a literal `X` is a prefix test. */
  lemma {:induction false} LikePrefix(s: string, lit: string)
    requires NoWildcards(lit)
    ensures Like(s, lit + "%") <==> StartsWith(s, lit)
  {
    if lit == [] {
      assert lit + "%" == "%";
      LikeAnything(s);
    } else if s != [] {
      assert lit[0] in lit;
      assert (lit + "%")[1..] == lit[1..] + "%";
      LikePrefix(s[1..], lit[1..]);
      assert StartsWith(s, lit) <==> s[0] == lit[0] && StartsWith(s[1..], lit[1..]) by {
        if |lit| <= |s| {
          assert s[..|lit|] == [s[0]] + s[1..][..|lit| - 1];
          assert lit == [lit[0]] + lit[1..];
        }
      }
    }
  }

  /** `s LIKE '_LOB'`: any one character followed by `LOB`. */
  lemma LikeLob(s: string)
    ensures Like(s, "_LOB") <==> |s| == 4 && s[1..] == "LOB"
  {
    if s != [] {
      assert "_LOB"[1..] == "LOB";
      LikeLiteral(s[1..], "LOB");
    }
  }

  // ---------------------------------------------------------------------------
  // The DATA_TYPE classifier
  // ---------------------------------------------------------------------------

  datatype Condition = LikeTest(pattern: string) | EqualsTest(literal: string)

  /** One `WHEN condition THEN result` arm of a searched SQL `CASE`. */
  datatype Arm = Arm(condition: Condition, result: string)

  function Holds(c: Condition, s: string): bool
  {
    match c
    case LikeTest(p) => Like(s, p)
    case EqualsTest(l) => s == l
  }

  /** A searched `CASE` from arm `i` on: the result of the first arm whose condition holds, else the `ELSE` value. */
  function EvalCase(arms: seq<Arm>, i: nat, s: string, otherwise: string): (r: string)
    ensures r == otherwise || exists j :: i <= j < |arms| && r == arms[j].result
    decreases |arms| - i
  {
    if i >= |arms| then otherwise
    else if Holds(arms[i].condition, s) then arms[i].result
    else EvalCase(arms, i + 1, s, otherwise)
  }

  const STRING: string := "STRING"
  const NUMBER: string := "NUMBER"

  /** The arms of the catalog query's `CASE`, in the order written (the `RAW` arm appears twice). */
  const DataTypeArms: seq<Arm> := [
    Arm(LikeTest("VARCHAR%"), STRING),
    Arm(EqualsTest("CHAR"), STRING),
    Arm(EqualsTest("DATE"), STRING),
    Arm(LikeTest("TIMESTAMP%"), STRING),
    Arm(LikeTest("LONG%"), NUMBER),
    Arm(EqualsTest("NUMBER"), NUMBER),
    Arm(EqualsTest("RAW"), STRING),
    Arm(LikeTest("_LOB"), STRING),
    Arm(EqualsTest("RAW"), STRING)
  ]

  /** The `dataType` the catalog query reports for a column whose Oracle type tag is `dataType`. */
  function ClassifyDataType(dataType: string): (r: string)
    ensures r == STRING || r == NUMBER
  {
    EvalCase(DataTypeArms, 0, dataType, STRING)
  }

  /** The `CASE` arms read one after the other. */
  lemma ClassifyUnrolled(t: string)
    ensures ClassifyDataType(t) ==
      if Like(t, "VARCHAR%") then STRING
      else if t == "CHAR" || t == "DATE" then STRING
      else if Like(t, "TIMESTAMP%") then STRING
      else if Like(t, "LONG%") || t == "NUMBER" then NUMBER
      else STRING
  {
    var a := DataTypeArms;
    assert EvalCase(a, 8, t, STRING) == STRING;
    assert EvalCase(a, 7, t, STRING) == STRING;
    assert EvalCase(a, 6, t, STRING) == STRING;
    assert EvalCase(a, 5, t, STRING) == if t == "NUMBER" then NUMBER else STRING;
    assert EvalCase(a, 4, t, STRING) == if Like(t, "LONG%") then NUMBER else EvalCase(a, 5, t, STRING);
    assert EvalCase(a, 3, t, STRING) == if Like(t, "TIMESTAMP%") then STRING else EvalCase(a, 4, t, STRING);
    assert EvalCase(a, 2, t, STRING) == if t == "DATE" then STRING else EvalCase(a, 3, t, STRING);
    assert EvalCase(a, 1, t, STRING) == if t == "CHAR" then STRING else EvalCase(a, 2, t, STRING);
    assert EvalCase(a, 0, t, STRING) == if Like(t, "VARCHAR%") then STRING else EvalCase(a, 1, t, STRING);
  }

  /** The classifier answers `NUMBER` exactly for the `LONG` family and `NUMBER` itself. */
  lemma ClassifyNumberIff(t: string)
    ensures ClassifyDataType(t) == NUMBER <==> StartsWith(t, "LONG") || t == "NUMBER"
  {
    ClassifyUnrolled(t);
    assert "VARCHAR%" == "VARCHAR" + "%";
    assert "TIMESTAMP%" == "TIMESTAMP" + "%";
    assert "LONG%" == "LONG" + "%";
    LikePrefix(t, "VARCHAR");
    LikePrefix(t, "TIMESTAMP");
    LikePrefix(t, "LONG");
    assert StartsWith(t, "VARCHAR") ==> !StartsWith(t, "LONG") && t != "NUMBER" by {
      if StartsWith(t, "VARCHAR") { assert t[0] == 'V'; }
    }
    assert StartsWith(t, "TIMESTAMP") ==> !StartsWith(t, "LONG") && t != "NUMBER" by {
      if StartsWith(t, "TIMESTAMP") { assert t[0] == 'T'; }
    }
    assert StartsWith(t, "LONG") ==> t != "CHAR" && t != "DATE" by {
      if StartsWith(t, "LONG") { assert t[0] == 'L'; }
    }
  }

  /** Tags the catalog can report, classified as the `CASE` arms say. */
  lemma ClassifyExamples()
    ensures ClassifyDataType("VARCHAR2") == STRING
    ensures ClassifyDataType("NUMBER") == NUMBER
    ensures ClassifyDataType("LONG RAW") == NUMBER
    ensures ClassifyDataType("CLOB") == STRING
    ensures ClassifyDataType("FLOAT") == STRING
    ensures ClassifyDataType("TIMESTAMP(6)") == STRING
  {
    ClassifyNumberIff("VARCHAR2");
    ClassifyNumberIff("NUMBER");
    ClassifyNumberIff("LONG RAW");
    assert StartsWith("LONG RAW", "LONG");
    ClassifyNumberIff("CLOB");
    ClassifyNumberIff("FLOAT");
    ClassifyNumberIff("TIMESTAMP(6)");
  }

  const FLOAT_TYPE: string := "Float"
  const STRING_TYPE: string := "String"

  /** `translateJStoGraphQLType`: the GraphQL scalar named for a classified column type. */
  function GraphQLType(dataType: string): (r: string)
    ensures r == FLOAT_TYPE || r == STRING_TYPE
    ensures r == FLOAT_TYPE <==> dataType == NUMBER
  {
    match dataType
    case "STRING" => STRING_TYPE
    case "NUMBER" => FLOAT_TYPE
    case _ => STRING_TYPE
  }

  /** A catalog column surfaces as `Float` exactly when its Oracle tag is `NUMBER` or starts with `LONG`. */
  lemma GraphQLTypeOfTag(t: string)
    ensures GraphQLType(ClassifyDataType(t)) == FLOAT_TYPE <==> StartsWith(t, "LONG") || t == "NUMBER"
  {
    ClassifyNumberIff(t);
  }

  // ---------------------------------------------------------------------------
  // The identifier filter and the row conditions
  // ---------------------------------------------------------------------------

  /** `[[:alnum:]_*]`, with `[:alnum:]` read as the ASCII letters and digits. */
  predicate InIdentifierClass(c: char) { IsAsciiLetter(c) || IsDigit(c) || c == '_' || c == '*' }

  /**
   * `REGEXP_INSTR(s, '[^[:alnum:]_*]')`: the 1-based position of the first character
   * outside the class, 0 when there is none.
   */
  function RegexpInstr(s: string): (r: nat)
    ensures r <= |s|
    ensures r == 0 <==> forall i :: 0 <= i < |s| ==> InIdentifierClass(s[i])
    ensures r > 0 ==> !InIdentifierClass(s[r - 1]) && forall i :: 0 <= i < r - 1 ==> InIdentifierClass(s[i])
  {
    if s == [] then 0
    else if !InIdentifierClass(s[0]) then 1
    else
      var k := RegexpInstr(s[1..]);
      if k == 0 then 0 else k + 1
  }

  /**
   * `REGEXP_INSTR(s, '[^[:alnum:]_*]') = 0`. Oracle stores the empty string as NULL, and
   * `NULL = 0` is not true, so an empty name is not admitted.
   */
  predicate IdentifierAdmitted(s: string) { s != [] && RegexpInstr(s) == 0 }

  /** An admitted name without `*` is left unchanged by the sanitiser. */
  lemma AdmittedNameIsSanitized(s: string)
    requires IdentifierAdmitted(s) && '*' !in s
    ensures Sanitize(s) == s
  {
    assert IsWordString(s) by {
      forall i | 0 <= i < |s| ensures IsWordChar(s[i]) {
        assert InIdentifierClass(s[i]);
        assert s[i] in s;
      }
    }
    SanitizeFixedPoint(s);
  }

  /** An admitted name has no space, so it is its own last space-separated token. */
  lemma AdmittedNameHasNoSpace(s: string)
    requires IdentifierAdmitted(s)
    ensures ' ' !in s
  {
  }

  /** One row of `ALL_TAB_COLUMNS`, with the fields the query reads. */
  datatype TabColumn = TabColumn(owner: string, tableName: string, columnName: string, dataType: string)

  /** The conditions of the query's first branch on a row of `ALL_TAB_COLUMNS`. */
  predicate DirectRowAdmitted(r: TabColumn)
  {
    && r.owner !in ["SYS", "SYSTEM"]
    && r.tableName !in ["PLSQL_PROFILER_DATA", "TOAD_PLAN_TABLE"]
    && IdentifierAdmitted(r.columnName)
    && IdentifierAdmitted(r.tableName)
  }

  /** The record one catalog row becomes once its JSON text is parsed. */
  datatype CatalogTuple = CatalogTuple(owner: string, tableName: string, columnName: string, dataType: string)

  /** The JSON object the query builds for a row: the names as stored and the classified type. */
  function ToTuple(r: TabColumn): (t: CatalogTuple)
    ensures t.dataType == STRING || t.dataType == NUMBER
    ensures t.dataType == NUMBER <==> StartsWith(r.dataType, "LONG") || r.dataType == "NUMBER"
    ensures t.owner == r.owner && t.tableName == r.tableName && t.columnName == r.columnName
  {
    ClassifyNumberIff(r.dataType);
    CatalogTuple(r.owner, r.tableName, r.columnName, ClassifyDataType(r.dataType))
  }

  /** A type the query's `CASE` can produce. */
  predicate IsClassified(dataType: string) { dataType == STRING || dataType == NUMBER }

  /** Every record of the sequence carries a type the query's `CASE` can produce. */
  predicate Classified(ts: seq<CatalogTuple>)
  {
    forall i :: 0 <= i < |ts| ==> IsClassified(ts[i].dataType)
  }
}
