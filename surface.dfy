/**
 * The GraphQL schema text `generateGraphQL` assembles (index.js:46-77): the selected owners,
 * one object type per table with one field per column, then the `Query` type with one field
 * per table taking every column as an optional argument and returning a list of the table's
 * type. Type, field and argument names are the RAW owner, table and column names.
 */
module Surface {
  import opened Wrappers
  import opened Text
  import opened OrderedDict
  import opened Catalog
  import opened SchemaModel
  import opened GraphQLLexer

  /** `${table.owner}_${table.name}`. */
  function TypeName(t: Table): string
  {
    t.owner + "_" + t.name
  }

  /** `${name}: ${translateJStoGraphQLType(dataType)}`. */
  function FieldText(c: ColumnDef): string
  {
    c.name + ": " + GraphQLType(c.dataType)
  }

  /** A column as an optional argument of the table's query field. */
  function ArgText(c: ColumnDef): string
  {
    FieldText(c) + " = null"
  }

  function FieldTexts(cs: seq<ColumnDef>): (r: seq<string>)
    ensures |r| == |cs| && forall i :: 0 <= i < |cs| ==> r[i] == FieldText(cs[i])
  {
    seq(|cs|, i requires 0 <= i < |cs| => FieldText(cs[i]))
  }

  function ArgTexts(cs: seq<ColumnDef>): (r: seq<string>)
    ensures |r| == |cs| && forall i :: 0 <= i < |cs| ==> r[i] == ArgText(cs[i])
  {
    seq(|cs|, i requires 0 <= i < |cs| => ArgText(cs[i]))
  }

  /** The type of a table with its fields joined by `sep`. */
  function TypeDeclWith(t: Table, sep: string): string
  {
    "type " + TypeName(t) + " {" + Join(FieldTexts(Values(t.columns)), sep) + "}"
  }

  /** The type as index.js:59-71 writes it: no separator at all between two fields. */
  function TypeDeclAsWritten(t: Table): string
  {
    TypeDeclWith(t, "")
  }

  /**
   * The type with its fields separated by a space, which GraphQL ignores: the field separator
   * the code leaves out, restored. Everything below that renders a type builds on this one.
   */
  function TypeDecl(t: Table): string
  {
    TypeDeclWith(t, " ")
  }

  /** The table's field of `Query` (index.js:58, 64-67, 72). */
  function QueryField(t: Table): string
  {
    TypeName(t) + "(" + Join(ArgTexts(Values(t.columns)), ", ") + "): [" + TypeName(t) + "]"
  }

  /** The renderings of `ts`, one after the other. */
  function ConcatMap<T>(f: T -> string, ts: seq<T>): string
  {
    if |ts| == 0 then "" else ConcatMap(f, ts[..|ts| - 1]) + f(ts[|ts| - 1])
  }

  /** The object types of the tables `ts`, in order, with the field separator restored. */
  function TypeDecls(ts: seq<Table>): string
  {
    ConcatMap(TypeDecl, ts)
  }

  /** The `Query` fields of the tables `ts`, in order. */
  function QueryFields(ts: seq<Table>): string
  {
    ConcatMap(QueryField, ts)
  }

  const QUERY_OPEN: string := "type Query {"

  /** `graphqlSchema` at index.js:77 for the tables `ts`, with the field separator restored. */
  function SurfaceText(ts: seq<Table>): string
  {
    TypeDecls(ts) + QUERY_OPEN + QueryFields(ts) + "}"
  }

  /** `selectedTables` (index.js:46-53): every owner, or those whose `name` is listed. */
  function SelectedSchemas(m: DbSchema, selected: Option<seq<string>>): seq<Schema>
  {
    match selected
    case None => Values(m.schemas)
    case Some(names) => KeepNamed(Values(m.schemas), names)
  }

  function KeepNamed(ss: seq<Schema>, names: seq<string>): (r: seq<Schema>)
    ensures |r| <= |ss|
  {
    if |ss| == 0 then []
    else KeepNamed(ss[..|ss| - 1], names) + (if ss[|ss| - 1].name in names then [ss[|ss| - 1]] else [])
  }

  /** The tables of the owners, owner by owner, each owner's in property order. */
  function TablesOf(ss: seq<Schema>): seq<Table>
  {
    if |ss| == 0 then [] else TablesOf(ss[..|ss| - 1]) + Values(ss[|ss| - 1].tables)
  }

  /** The schema text `generateGraphQL` hands to `buildSchema`, with the field separator restored. */
  function Sdl(m: DbSchema, selected: Option<seq<string>>): string
  {
    SurfaceText(TablesOf(SelectedSchemas(m, selected)))
  }

  // ---------------------------------------------------------------------------
  // Selection
  // ---------------------------------------------------------------------------

  /** An owner is kept exactly when it is one of the owners and its name is listed; the order is kept. */
  lemma {:induction false} KeepNamedMembers(ss: seq<Schema>, names: seq<string>, s: Schema)
    ensures s in KeepNamed(ss, names) <==> s in ss && s.name in names
  {
    if |ss| > 0 {
      var init := ss[..|ss| - 1];
      KeepNamedMembers(init, names, s);
      assert ss == init + [ss[|ss| - 1]];
    }
  }

  /** Keeping the listed owners never reorders them. */
  lemma {:induction false} KeepNamedIsSubsequence(ss: seq<Schema>, names: seq<string>)
    ensures IsSubsequence(KeepNamed(ss, names), ss)
  {
    if |ss| > 0 {
      var init := ss[..|ss| - 1];
      KeepNamedIsSubsequence(init, names);
      SubsequenceSnoc(KeepNamed(init, names), init, ss[|ss| - 1], ss[|ss| - 1].name in names);
      assert init + [ss[|ss| - 1]] == ss;
    }
  }

  /** `a` is `b` with some elements left out. */
  ghost predicate IsSubsequence<T>(a: seq<T>, b: seq<T>)
  {
    exists idx: seq<nat> ::
      && |idx| == |a|
      && (forall k :: 0 <= k < |idx| ==> idx[k] < |b| && a[k] == b[idx[k]])
      && (forall k, l :: 0 <= k < l < |idx| ==> idx[k] < idx[l])
  }

  lemma SubsequenceSnoc<T>(a: seq<T>, b: seq<T>, x: T, keep: bool)
    requires IsSubsequence(a, b)
    ensures IsSubsequence(a + (if keep then [x] else []), b + [x])
  {
    var idx: seq<nat> :| |idx| == |a| && (forall k :: 0 <= k < |idx| ==> idx[k] < |b| && a[k] == b[idx[k]])
      && (forall k, l :: 0 <= k < l < |idx| ==> idx[k] < idx[l]);
    var a' := a + (if keep then [x] else []);
    var idx' := idx + (if keep then [|b|] else []);
    assert |idx'| == |a'|;
    assert forall k :: 0 <= k < |idx'| ==> idx'[k] < |b + [x]| && a'[k] == (b + [x])[idx'[k]];
  }

  /** Without a selection every owner is kept. */
  lemma NoSelectionKeepsAll(m: DbSchema)
    ensures SelectedSchemas(m, None) == Values(m.schemas)
  {
  }

  /** A table is surfaced exactly when it is a table of one of the surfaced owners. */
  lemma {:induction false} TablesOfMembers(ss: seq<Schema>, t: Table)
    ensures t in TablesOf(ss) <==> exists i :: 0 <= i < |ss| && t in Values(ss[i].tables)
  {
    if |ss| > 0 {
      var init := ss[..|ss| - 1];
      TablesOfMembers(init, t);
      if t in TablesOf(init) {
        var i :| 0 <= i < |init| && t in Values(init[i].tables);
        assert ss[i] == init[i];
      }
      if exists i :: 0 <= i < |ss| && t in Values(ss[i].tables) {
        var i :| 0 <= i < |ss| && t in Values(ss[i].tables);
        if i < |ss| - 1 {
          assert init[i] == ss[i];
        }
      }
    }
  }

  // ---------------------------------------------------------------------------
  // The schema text, token by token
  // ---------------------------------------------------------------------------

  predicate ColumnsNamed(cs: seq<ColumnDef>)
  {
    forall i :: 0 <= i < |cs| ==> IsGraphQLName(cs[i].name)
  }

  /** A table whose type name and column names are GraphQL names. */
  predicate WellNamed(t: Table)
  {
    IsGraphQLName(TypeName(t)) && ColumnsNamed(Values(t.columns))
  }

  function FieldTokens(c: ColumnDef): seq<Token>
  {
    [Name(c.name), Punct(':'), Name(GraphQLType(c.dataType))]
  }

  function ArgTokens(c: ColumnDef): seq<Token>
  {
    FieldTokens(c) + [Punct('='), Name("null")]
  }

  function AllFieldTokens(cs: seq<ColumnDef>): seq<Token>
  {
    if |cs| == 0 then [] else AllFieldTokens(cs[..|cs| - 1]) + FieldTokens(cs[|cs| - 1])
  }

  function AllArgTokens(cs: seq<ColumnDef>): seq<Token>
  {
    if |cs| == 0 then [] else AllArgTokens(cs[..|cs| - 1]) + ArgTokens(cs[|cs| - 1])
  }

  /** The tokens an object type with one field per column consists of. */
  function TypeTokens(t: Table): seq<Token>
  {
    [Name("type"), Name(TypeName(t)), Punct('{')] + AllFieldTokens(Values(t.columns)) + [Punct('}')]
  }

  /** The tokens of a `Query` field taking every column as an argument. */
  function QueryFieldTokens(t: Table): seq<Token>
  {
    [Name(TypeName(t)), Punct('(')] + AllArgTokens(Values(t.columns))
      + [Punct(')'), Punct(':'), Punct('['), Name(TypeName(t)), Punct(']')]
  }

  function AllTypeTokens(ts: seq<Table>): seq<Token>
  {
    if |ts| == 0 then [] else AllTypeTokens(ts[..|ts| - 1]) + TypeTokens(ts[|ts| - 1])
  }

  function AllQueryFieldTokens(ts: seq<Table>): seq<Token>
  {
    if |ts| == 0 then [] else AllQueryFieldTokens(ts[..|ts| - 1]) + QueryFieldTokens(ts[|ts| - 1])
  }

  lemma GraphQLTypeIsName(dataType: string)
    ensures IsGraphQLName(GraphQLType(dataType))
  {
  }

  // Single literals of the schema text.

  lemma LexColon()
    ensures Lex(": ") == [Punct(':')]
  {
  }

  lemma LexTypeKeyword()
    ensures Lex("type ") == [Name("type")]
  {
    assert NameEnd("type ", 1) == 4;
    assert "type "[..4] == "type";
    assert "type "[4..] == " ";
  }

  lemma LexOpenBrace()
    ensures Lex(" {") == [Punct('{')]
  {
  }

  lemma LexCloseBrace()
    ensures Lex("}") == [Punct('}')]
  {
  }

  lemma LexQueryTail()
    ensures Lex("): [") == [Punct(')'), Punct(':'), Punct('[')]
  {
  }

  lemma LexDefaultNull()
    ensures Lex(" = null") == [Punct('='), Name("null")]
  {
    var s := " = null";
    assert s[1..] == "= null";
    assert s[3..] == "null";
    assert NameEnd("null", 1) == 4;
    assert "null"[..4] == "null";
  }

  lemma LexQueryOpen()
    ensures Lex(QUERY_OPEN) == [Name("type"), Name("Query"), Punct('{')]
  {
    assert IsGraphQLName("Query");
    LexTypeHead("Query");
    assert "type " + "Query" + " {" == QUERY_OPEN;
  }

  // The shapes of the schema text, over arbitrary names.

  /** A colon and a type name after a non-empty text add two tokens. */
  lemma LexColonThen(f: string, ty: string)
    requires f != [] && IsGraphQLName(ty)
    ensures Lex(f + ": " + ty) == Lex(f) + [Punct(':'), Name(ty)]
  {
    LexSplitBefore(f, ": ");
    LastOfAppend(f, ": ");
    LexSplitAfter(f + ": ", ty);
    LexColon();
    LexName(ty);
  }

  /** `name: type` is three tokens. */
  lemma LexFieldShape(name: string, ty: string)
    requires IsGraphQLName(name) && IsGraphQLName(ty)
    ensures Lex(name + ": " + ty) == [Name(name), Punct(':'), Name(ty)]
  {
    LexColonThen(name, ty);
    LexName(name);
  }

  /** Appending `= null` appends its two tokens. */
  lemma LexArgShape(field: string)
    ensures Lex(field + " = null") == Lex(field) + [Punct('='), Name("null")]
  {
    LexAppend(field, " = null");
    LexDefaultNull();
  }

  /** A separator of insignificant characters contributes no token. */
  lemma LexSeparated(j: string, sep: string, x: string)
    requires sep != [] && IsIgnored(sep[0]) && IsIgnored(sep[|sep| - 1]) && Lex(sep) == []
    ensures Lex(j + sep + x) == Lex(j) + Lex(x)
  {
    LastOfAppend(j, sep);
    LexAppend3(j, sep, x);
  }

  /** `type N {`. */
  lemma LexTypeHead(tn: string)
    requires IsGraphQLName(tn)
    ensures Lex("type " + tn + " {") == [Name("type"), Name(tn), Punct('{')]
  {
    LexSplitAfter("type ", tn);
    LexSplitBefore("type " + tn, " {");
    LexTypeKeyword();
    LexName(tn);
    LexOpenBrace();
  }

  /** `type N {body}`. */
  lemma LexTypeShape(tn: string, body: string)
    requires IsGraphQLName(tn)
    ensures Lex("type " + tn + " {" + body + "}") == [Name("type"), Name(tn), Punct('{')] + Lex(body) + [Punct('}')]
  {
    var h := "type " + tn + " {";
    LastOfAppend("type " + tn, " {");
    LexSplitAfter(h, body);
    LexSplitBefore(h + body, "}");
    LexTypeHead(tn);
    LexCloseBrace();
  }

  /** `N(`. */
  lemma LexQueryHead(tn: string)
    requires IsGraphQLName(tn)
    ensures Lex(tn + "(") == [Name(tn), Punct('(')]
  {
    LexSplitBefore(tn, "(");
    LexName(tn);
    assert Lex("(") == [Punct('(')];
  }

  /** `N(args`. */
  lemma LexQueryOpenArgs(tn: string, args: string)
    requires IsGraphQLName(tn)
    ensures Lex(tn + "(" + args) == [Name(tn), Punct('(')] + Lex(args)
  {
    LexQueryHead(tn);
    LastOfAppend(tn, "(");
    LexSplitAfter(tn + "(", args);
  }

  /** `): [N]`. */
  lemma LexQueryClose(tn: string)
    requires IsGraphQLName(tn)
    ensures Lex("): [" + tn + "]") == [Punct(')'), Punct(':'), Punct('['), Name(tn), Punct(']')]
  {
    LexSplitAfter("): [", tn);
    LexSplitBefore("): [" + tn, "]");
    LexQueryTail();
    LexName(tn);
    assert Lex("]") == [Punct(']')];
  }

  /** Proof step: regrouping a `Query` field's text, stated apart to keep the lexing proof small. */
  lemma QueryFieldAssoc(a: string, b: string, c: string, d: string, e: string, f: string)
    ensures a + b + c + d + e + f == (a + b + c) + (d + e + f)
  {
  }

  /** `N(args): [N]`. */
  lemma LexQueryShape(tn: string, args: string)
    requires IsGraphQLName(tn)
    ensures Lex(tn + "(" + args + "): [" + tn + "]") ==
      [Name(tn), Punct('(')] + Lex(args) + [Punct(')'), Punct(':'), Punct('['), Name(tn), Punct(']')]
  {
    QueryFieldAssoc(tn, "(", args, "): [", tn, "]");
    LexSplitBefore(tn + "(" + args, "): [" + tn + "]");
    LexQueryOpenArgs(tn, args);
    LexQueryClose(tn);
  }

  /** Two names written one after the other form a single name. */
  lemma MergedName(a: string, b: string)
    requires IsGraphQLName(a) && IsGraphQLName(b)
    ensures IsGraphQLName(a + b)
  {
    var m := a + b;
    assert m[0] == a[0];
    forall i | 0 <= i < |m| ensures IsWordChar(m[i]) {
      if i < |a| { assert m[i] == a[i]; } else { assert m[i] == b[i - |a|]; }
    }
  }

  /** Proof step: regrouping two adjacent fields, stated apart to keep the lexing proof small. */
  lemma AdjacentAssoc(n0: string, sep: string, t0: string, n1: string, t1: string)
    ensures n0 + sep + t0 + (n1 + sep + t1) == (n0 + sep + (t0 + n1)) + sep + t1
  {
  }

  /** Without a separator, a field's type and the next field's name make one name. */
  lemma LexAdjacentShape(n0: string, t0: string, n1: string, t1: string)
    requires IsGraphQLName(n0) && IsGraphQLName(t0) && IsGraphQLName(n1) && IsGraphQLName(t1)
    ensures Lex(n0 + ": " + t0 + (n1 + ": " + t1)) ==
      [Name(n0), Punct(':'), Name(t0 + n1), Punct(':'), Name(t1)]
  {
    MergedName(t0, n1);
    AdjacentAssoc(n0, ": ", t0, n1, t1);
    LexFieldShape(n0, t0 + n1);
    LexColonThen(n0 + ": " + (t0 + n1), t1);
  }

  // The schema text of the model.

  /** A field is its name, a colon and its type. */
  lemma LexField(c: ColumnDef)
    requires IsGraphQLName(c.name)
    ensures Lex(FieldText(c)) == FieldTokens(c)
  {
    GraphQLTypeIsName(c.dataType);
    LexFieldShape(c.name, GraphQLType(c.dataType));
  }

  /** An argument is a field followed by `= null`. */
  lemma LexArg(c: ColumnDef)
    requires IsGraphQLName(c.name)
    ensures Lex(ArgText(c)) == ArgTokens(c)
  {
    LexField(c);
    LexArgShape(FieldText(c));
  }

  /** Step of `Join` from the right. */
  lemma JoinSnoc(xs: seq<string>, n: nat, sep: string)
    requires 1 < n <= |xs|
    ensures Join(xs[..n], sep) == Join(xs[..n - 1], sep) + sep + xs[n - 1]
  {
    assert xs[..n][..n - 1] == xs[..n - 1];
  }

  lemma AllFieldTokensSnoc(cs: seq<ColumnDef>, n: nat)
    requires n < |cs|
    ensures AllFieldTokens(cs[..n + 1]) == AllFieldTokens(cs[..n]) + FieldTokens(cs[n])
  {
    assert cs[..n + 1][..n] == cs[..n];
  }

  lemma AllArgTokensSnoc(cs: seq<ColumnDef>, n: nat)
    requires n < |cs|
    ensures AllArgTokens(cs[..n + 1]) == AllArgTokens(cs[..n]) + ArgTokens(cs[n])
  {
    assert cs[..n + 1][..n] == cs[..n];
  }

  /** Fields separated by spaces are lexed field by field. */
  lemma {:induction false} LexFields(cs: seq<ColumnDef>, n: nat)
    requires n <= |cs| && ColumnsNamed(cs)
    ensures Lex(Join(FieldTexts(cs)[..n], " ")) == AllFieldTokens(cs[..n])
  {
    var xs := FieldTexts(cs);
    if n == 1 {
      assert xs[..1] == [FieldText(cs[0])];
      AllFieldTokensSnoc(cs, 0);
      LexField(cs[0]);
    } else if n > 1 {
      LexFields(cs, n - 1);
      LexFieldsStep(cs, n);
    } else {
      assert cs[..0] == [];
    }
  }

  /** Arguments separated by `, ` are lexed argument by argument, the commas being insignificant. */
  lemma {:induction false} LexArgs(cs: seq<ColumnDef>, n: nat)
    requires n <= |cs| && ColumnsNamed(cs)
    ensures Lex(Join(ArgTexts(cs)[..n], ", ")) == AllArgTokens(cs[..n])
  {
    var xs := ArgTexts(cs);
    if n == 1 {
      assert xs[..1] == [ArgText(cs[0])];
      AllArgTokensSnoc(cs, 0);
      LexArg(cs[0]);
    } else if n > 1 {
      LexArgs(cs, n - 1);
      LexArgsStep(cs, n);
    } else {
      assert cs[..0] == [];
    }
  }

  lemma LexFieldsStep(cs: seq<ColumnDef>, n: nat)
    requires 1 < n <= |cs| && IsGraphQLName(cs[n - 1].name)
    requires Lex(Join(FieldTexts(cs)[..n - 1], " ")) == AllFieldTokens(cs[..n - 1])
    ensures Lex(Join(FieldTexts(cs)[..n], " ")) == AllFieldTokens(cs[..n])
  {
    var xs := FieldTexts(cs);
    JoinSnoc(xs, n, " ");
    LexSpace();
    LexSeparated(Join(xs[..n - 1], " "), " ", xs[n - 1]);
    LexField(cs[n - 1]);
    AllFieldTokensSnoc(cs, n - 1);
  }

  lemma LexArgsStep(cs: seq<ColumnDef>, n: nat)
    requires 1 < n <= |cs| && IsGraphQLName(cs[n - 1].name)
    requires Lex(Join(ArgTexts(cs)[..n - 1], ", ")) == AllArgTokens(cs[..n - 1])
    ensures Lex(Join(ArgTexts(cs)[..n], ", ")) == AllArgTokens(cs[..n])
  {
    var xs := ArgTexts(cs);
    JoinSnoc(xs, n, ", ");
    LexCommaSpace();
    LexSeparated(Join(xs[..n - 1], ", "), ", ", xs[n - 1]);
    LexArg(cs[n - 1]);
    AllArgTokensSnoc(cs, n - 1);
  }

  lemma LexSpace()
    ensures Lex(" ") == []
  {
  }

  lemma LexCommaSpace()
    ensures Lex(", ") == []
  {
  }

  /** With GraphQL names, the corrected type text is exactly a type with one field per column. */
  lemma LexTypeDecl(t: Table)
    requires WellNamed(t)
    ensures Lex(TypeDecl(t)) == TypeTokens(t)
  {
    var cs := Values(t.columns);
    LexFields(cs, |cs|);
    assert FieldTexts(cs)[..|cs|] == FieldTexts(cs);
    assert cs[..|cs|] == cs;
    LexTypeShape(TypeName(t), Join(FieldTexts(cs), " "));
  }

  /** With GraphQL names, a query field is the table's name, its arguments and its list type. */
  lemma LexQueryField(t: Table)
    requires WellNamed(t)
    ensures Lex(QueryField(t)) == QueryFieldTokens(t)
  {
    var cs := Values(t.columns);
    LexArgs(cs, |cs|);
    assert ArgTexts(cs)[..|cs|] == ArgTexts(cs);
    assert cs[..|cs|] == cs;
    LexQueryShape(TypeName(t), Join(ArgTexts(cs), ", "));
  }

  /** The object types end with `}`, the query fields with `]`. */
  lemma {:induction false} RenderingsEnd(ts: seq<Table>)
    ensures TypeDecls(ts) == [] || TypeDecls(ts)[|TypeDecls(ts)| - 1] == '}'
    ensures QueryFields(ts) == [] || QueryFields(ts)[|QueryFields(ts)| - 1] == ']'
  {
    if |ts| > 0 {
      var t := ts[|ts| - 1];
      LastOfAppend(TypeDecls(ts[..|ts| - 1]), TypeDecl(t));
      LastOfAppend(QueryFields(ts[..|ts| - 1]), QueryField(t));
    }
  }

  /** Every table has a GraphQL name and GraphQL column names. */
  predicate AllWellNamed(ts: seq<Table>) { forall i :: 0 <= i < |ts| ==> WellNamed(ts[i]) }

  lemma {:induction false} LexTypeDecls(ts: seq<Table>)
    requires forall i :: 0 <= i < |ts| ==> WellNamed(ts[i])
    ensures Lex(TypeDecls(ts)) == AllTypeTokens(ts)
  {
    if |ts| > 0 {
      var init := ts[..|ts| - 1];
      LexTypeDecls(init);
      LexTypeDecl(ts[|ts| - 1]);
      RenderingsEnd(init);
      LexAppend(TypeDecls(init), TypeDecl(ts[|ts| - 1]));
    }
  }

  lemma {:induction false} LexQueryFields(ts: seq<Table>)
    requires forall i :: 0 <= i < |ts| ==> WellNamed(ts[i])
    ensures Lex(QueryFields(ts)) == AllQueryFieldTokens(ts)
  {
    if |ts| > 0 {
      var init := ts[..|ts| - 1];
      LexQueryFields(init);
      LexQueryField(ts[|ts| - 1]);
      RenderingsEnd(init);
      LexAppend(QueryFields(init), QueryField(ts[|ts| - 1]));
    }
  }

  /** The `Query` type after the object types. */
  lemma LexSurfaceShape(decls: string, fields: string)
    requires decls == [] || !IsWordChar(decls[|decls| - 1])
    ensures Lex(decls + QUERY_OPEN + fields + "}") ==
      Lex(decls) + [Name("type"), Name("Query"), Punct('{')] + Lex(fields) + [Punct('}')]
  {
    var a := decls + QUERY_OPEN;
    LexAppend(decls, QUERY_OPEN);
    LexQueryOpen();
    LastOfAppend(decls, QUERY_OPEN);
    LexSplitAfter(a, fields);
    LexSplitBefore(a + fields, "}");
    LexCloseBrace();
  }

  lemma LexSurfaceTokens(ts: seq<Table>, decls: seq<Token>, fields: seq<Token>)
    requires Lex(TypeDecls(ts)) == decls && Lex(QueryFields(ts)) == fields
    ensures Lex(SurfaceText(ts)) == decls + [Name("type"), Name("Query"), Punct('{')] + fields + [Punct('}')]
  {
    RenderingsEnd(ts);
    LexSurfaceShape(TypeDecls(ts), QueryFields(ts));
  }

  /**
   * With GraphQL names, the schema text is one object type per table, then the `Query` type
   * with one field per table, in table order.
   */
  lemma LexSurface(ts: seq<Table>)
    requires AllWellNamed(ts)
    ensures Lex(SurfaceText(ts)) ==
      AllTypeTokens(ts) + [Name("type"), Name("Query"), Punct('{')] + AllQueryFieldTokens(ts) + [Punct('}')]
  {
    LexTypeDecls(ts);
    LexQueryFields(ts);
    LexSurfaceTokens(ts, AllTypeTokens(ts), AllQueryFieldTokens(ts));
  }

  // ---------------------------------------------------------------------------
  // The fields as written run together
  // ---------------------------------------------------------------------------

  /**
   * Without a separator, the type of one field and the name of the next make a single
   * GraphQL name: `ID: Float` followed by `NAME: String` reads as `ID : FloatNAME : String`.
   */
  lemma AdjacentFieldsMerge(c0: ColumnDef, c1: ColumnDef)
    requires IsGraphQLName(c0.name) && IsGraphQLName(c1.name)
    ensures Lex(FieldText(c0) + FieldText(c1)) ==
      [Name(c0.name), Punct(':'), Name(GraphQLType(c0.dataType) + c1.name), Punct(':'), Name(GraphQLType(c1.dataType))]
  {
    GraphQLTypeIsName(c0.dataType);
    GraphQLTypeIsName(c1.dataType);
    LexAdjacentShape(c0.name, GraphQLType(c0.dataType), c1.name, GraphQLType(c1.dataType));
  }

  /** `HR.EMP` with columns `ID NUMBER` and `NAME STRING`: the type as written has a field typed `FloatNAME`. */
  lemma TypeDeclAsWrittenIsMalformed(t: Table)
    requires t.owner == "HR" && t.name == "EMP"
    requires Values(t.columns) == [ColumnDef("ID", "NUMBER"), ColumnDef("NAME", "STRING")]
    ensures Lex(TypeDeclAsWritten(t)) ==
      [Name("type"), Name("HR_EMP"), Punct('{'), Name("ID"), Punct(':'), Name("FloatNAME"), Punct(':'), Name("String"), Punct('}')]
    ensures Lex(TypeDeclAsWritten(t)) != TypeTokens(t)
  {
    var cs := Values(t.columns);
    ExampleTypeName(t);
    ExampleBodyTokens(cs);
    LexTypeShape(TypeName(t), Join(FieldTexts(cs), ""));
    ExampleTypeTokens(t);
  }

  lemma ExampleTypeName(t: Table)
    requires t.owner == "HR" && t.name == "EMP"
    ensures TypeName(t) == "HR_EMP" && IsGraphQLName(TypeName(t))
  {
  }

  /** The two example fields, joined with nothing between them, lex with the first type merged into the second name. */
  lemma ExampleBodyTokens(cs: seq<ColumnDef>)
    requires cs == [ColumnDef("ID", "NUMBER"), ColumnDef("NAME", "STRING")]
    ensures Lex(Join(FieldTexts(cs), "")) == [Name("ID"), Punct(':'), Name("FloatNAME"), Punct(':'), Name("String")]
  {
    var xs := FieldTexts(cs);
    assert xs[..1] == [FieldText(cs[0])];
    assert Join(xs, "") == FieldText(cs[0]) + "" + FieldText(cs[1]);
    assert FieldText(cs[0]) + "" + FieldText(cs[1]) == FieldText(cs[0]) + FieldText(cs[1]);
    AdjacentFieldsMerge(cs[0], cs[1]);
    assert FLOAT_TYPE + "NAME" == "FloatNAME";
  }

  /** The well-formed type of the example has the field `ID: Float` at positions 3-5. */
  lemma ExampleTypeTokens(t: Table)
    requires Values(t.columns) == [ColumnDef("ID", "NUMBER"), ColumnDef("NAME", "STRING")]
    ensures |TypeTokens(t)| > 5 && TypeTokens(t)[5] == Name(FLOAT_TYPE)
  {
    var cs := Values(t.columns);
    AllFieldTokensSnoc(cs, 0);
    AllFieldTokensSnoc(cs, 1);
    assert cs[..0] == [] && cs[..2] == cs;
  }

  // ---------------------------------------------------------------------------
  // The accumulation loops
  // ---------------------------------------------------------------------------

  /** Proof step: regrouping a concatenation, stated apart to keep the loop proofs small. */
  lemma AppendAssoc4(a: string, b: string, c: string, d: string)
    ensures ((a + b) + c) + d == a + ((b + c) + d)
  {
  }

  /** Proof step: regrouping a concatenation, stated apart to keep the loop proofs small. */
  lemma AppendAssoc5(a: string, b: string, c: string, d: string, e: string)
    ensures (((a + b) + c) + d) + e == a + (((b + c) + d) + e)
  {
  }

  /** Appending item `k` of a join, after the separator when it is not the first. */
  lemma JoinStep(prefix: string, xs: seq<string>, k: nat, sep: string)
    requires k < |xs|
    ensures (if k == 0 then prefix + Join(xs[..k], sep) else prefix + Join(xs[..k], sep) + sep) + xs[k]
      == prefix + Join(xs[..k + 1], sep)
  {
    if k == 0 {
      assert xs[..1] == [xs[0]];
      assert Join(xs[..0], sep) == "";
    } else {
      JoinSnoc(xs, k + 1, sep);
      AppendAssoc4(prefix, Join(xs[..k], sep), sep, xs[k]);
    }
  }

  /**
   * index.js:58-72 for one table: its type (fields separated by a space) onto
   * `graphqlSchema`, its query field onto `schemaQuery`.
   */
  method EmitTable(t: Table, graphqlSchema0: string, schemaQuery0: string) returns (graphqlSchema: string, schemaQuery: string)
    ensures graphqlSchema == graphqlSchema0 + TypeDecl(t)
    ensures schemaQuery == schemaQuery0 + QueryField(t)
  {
    var cols := Values(t.columns);
    var tn := t.owner + "_" + t.name;
    schemaQuery := schemaQuery0 + tn + "(";
    graphqlSchema := graphqlSchema0 + "type " + tn + " {";
    ghost var gs := graphqlSchema;
    ghost var sq := schemaQuery;
    var isFirst := true;
    var k := 0;
    while k < |cols|
      invariant 0 <= k <= |cols|
      invariant isFirst <==> k == 0
      invariant graphqlSchema == gs + Join(FieldTexts(cols)[..k], " ")
      invariant schemaQuery == sq + Join(ArgTexts(cols)[..k], ", ")
    {
      ghost var g1, q1 := graphqlSchema, schemaQuery;
      if !isFirst {
        graphqlSchema := graphqlSchema + " ";
        schemaQuery := schemaQuery + ", ";
      }
      graphqlSchema := graphqlSchema + FieldText(cols[k]);
      schemaQuery := schemaQuery + ArgText(cols[k]);
      JoinNext(gs, g1, FieldTexts(cols), k, " ");
      JoinNext(sq, q1, ArgTexts(cols), k, ", ");
      isFirst := false;
      k := k + 1;
    }
    assert FieldTexts(cols)[..k] == FieldTexts(cols);
    assert ArgTexts(cols)[..k] == ArgTexts(cols);
    graphqlSchema := graphqlSchema + "}";
    schemaQuery := schemaQuery + "): [" + tn + "]";
    EmitTableEnds(graphqlSchema0, schemaQuery0, t);
  }

  /** The join of one more item, appended to the text that holds the join so far. */
  lemma JoinNext(prefix: string, cur: string, xs: seq<string>, k: nat, sep: string)
    requires k < |xs| && cur == prefix + Join(xs[..k], sep)
    ensures (if k == 0 then cur else cur + sep) + xs[k] == prefix + Join(xs[..k + 1], sep)
  {
    JoinStep(prefix, xs, k, sep);
  }

  /** The text `EmitTable` has written once its loop is done, as the table's two renderings. */
  lemma EmitTableEnds(g0: string, q0: string, t: Table)
    ensures ((((g0 + "type ") + TypeName(t)) + " {") + Join(FieldTexts(Values(t.columns)), " ")) + "}"
      == g0 + TypeDecl(t)
    ensures (((((q0 + TypeName(t)) + "(") + Join(ArgTexts(Values(t.columns)), ", ")) + "): [") + TypeName(t)) + "]"
      == q0 + QueryField(t)
  {
    AppendAssoc5(g0, "type ", TypeName(t), " {", Join(FieldTexts(Values(t.columns)), " "));
    AppendAssoc4(g0, "type " + TypeName(t) + " {", Join(FieldTexts(Values(t.columns)), " "), "}");
    AppendAssoc6(q0, TypeName(t), "(", Join(ArgTexts(Values(t.columns)), ", "), "): [", TypeName(t));
    AppendAssoc(q0, TypeName(t) + "(" + Join(ArgTexts(Values(t.columns)), ", ") + "): [" + TypeName(t), "]");
  }

  /** Proof step: regrouping a concatenation, stated apart to keep the loop proofs small. */
  lemma AppendAssoc6(a: string, b: string, c: string, d: string, e: string, f: string)
    ensures ((((a + b) + c) + d) + e) + f == a + ((((b + c) + d) + e) + f)
  {
  }

  /** Proof step: associativity of concatenation, stated apart to keep the loop proofs small. */
  lemma AppendAssoc(a: string, b: string, c: string)
    ensures (a + b) + c == a + (b + c)
  {
  }

  lemma ConcatMapSnoc<T>(f: T -> string, ts: seq<T>, n: nat)
    requires n < |ts|
    ensures ConcatMap(f, ts[..n + 1]) == ConcatMap(f, ts[..n]) + f(ts[n])
  {
    assert ts[..n + 1][..n] == ts[..n];
  }

  lemma {:induction false} ConcatMapAppend<T>(f: T -> string, a: seq<T>, b: seq<T>)
    ensures ConcatMap(f, a + b) == ConcatMap(f, a) + ConcatMap(f, b)
  {
    if |b| == 0 {
      assert a + b == a;
    } else {
      var b0 := b[..|b| - 1];
      ConcatMapAppend(f, a, b0);
      assert (a + b)[..|a + b| - 1] == a + b0;
    }
  }

  /** index.js:57-73 for one owner: its tables in property order. */
  method EmitSchema(s: Schema, graphqlSchema0: string, schemaQuery0: string) returns (graphqlSchema: string, schemaQuery: string)
    ensures graphqlSchema == graphqlSchema0 + TypeDecls(Values(s.tables))
    ensures schemaQuery == schemaQuery0 + QueryFields(Values(s.tables))
  {
    var ts := Values(s.tables);
    graphqlSchema, schemaQuery := graphqlSchema0, schemaQuery0;
    var j := 0;
    while j < |ts|
      invariant 0 <= j <= |ts|
      invariant graphqlSchema == graphqlSchema0 + TypeDecls(ts[..j])
      invariant schemaQuery == schemaQuery0 + QueryFields(ts[..j])
    {
      graphqlSchema, schemaQuery := EmitTable(ts[j], graphqlSchema, schemaQuery);
      RenderingsStep(graphqlSchema0, schemaQuery0, ts, j);
      j := j + 1;
    }
    assert ts[..j] == ts;
  }

  /** Rendering one more table extends both texts by its renderings. */
  lemma RenderingsStep(g0: string, q0: string, ts: seq<Table>, j: nat)
    requires j < |ts|
    ensures (g0 + TypeDecls(ts[..j])) + TypeDecl(ts[j]) == g0 + TypeDecls(ts[..j + 1])
    ensures (q0 + QueryFields(ts[..j])) + QueryField(ts[j]) == q0 + QueryFields(ts[..j + 1])
  {
    ConcatMapSnoc(TypeDecl, ts, j);
    ConcatMapSnoc(QueryField, ts, j);
    AppendAssoc(g0, TypeDecls(ts[..j]), TypeDecl(ts[j]));
    AppendAssoc(q0, QueryFields(ts[..j]), QueryField(ts[j]));
  }

  /** Rendering one more owner extends both texts by the renderings of its tables. */
  lemma SchemasStep(ss: seq<Schema>, i: nat)
    requires i < |ss|
    ensures TypeDecls(TablesOf(ss[..i])) + TypeDecls(Values(ss[i].tables)) == TypeDecls(TablesOf(ss[..i + 1]))
    ensures (QUERY_OPEN + QueryFields(TablesOf(ss[..i]))) + QueryFields(Values(ss[i].tables))
      == QUERY_OPEN + QueryFields(TablesOf(ss[..i + 1]))
  {
    TablesOfSnoc(ss, i);
    ConcatMapAppend(TypeDecl, TablesOf(ss[..i]), Values(ss[i].tables));
    ConcatMapAppend(QueryField, TablesOf(ss[..i]), Values(ss[i].tables));
    AppendAssoc(QUERY_OPEN, QueryFields(TablesOf(ss[..i])), QueryFields(Values(ss[i].tables)));
  }

  lemma TablesOfSnoc(ss: seq<Schema>, i: nat)
    requires i < |ss|
    ensures TablesOf(ss[..i + 1]) == TablesOf(ss[..i]) + Values(ss[i].tables)
  {
    assert ss[..i + 1][..i] == ss[..i];
  }

  /** index.js:42-77: the schema text for the selected owners of `m`. */
  method GenerateSurface(m: DbSchema, selected: Option<seq<string>>) returns (sdl: string)
    ensures sdl == Sdl(m, selected)
  {
    var selectedTables := SelectedSchemas(m, selected);
    var graphqlSchema := "";
    var schemaQuery := QUERY_OPEN;
    var i := 0;
    while i < |selectedTables|
      invariant 0 <= i <= |selectedTables|
      invariant graphqlSchema == TypeDecls(TablesOf(selectedTables[..i]))
      invariant schemaQuery == QUERY_OPEN + QueryFields(TablesOf(selectedTables[..i]))
    {
      graphqlSchema, schemaQuery := EmitSchema(selectedTables[i], graphqlSchema, schemaQuery);
      SchemasStep(selectedTables, i);
      i := i + 1;
    }
    assert selectedTables[..i] == selectedTables;
    schemaQuery := schemaQuery + "}";
    sdl := graphqlSchema + schemaQuery;
    SurfaceEnds(TablesOf(selectedTables));
  }

  /** The two accumulated texts, closed and concatenated, are the schema text. */
  lemma SurfaceEnds(ts: seq<Table>)
    ensures TypeDecls(ts) + ((QUERY_OPEN + QueryFields(ts)) + "}") == SurfaceText(ts)
  {
    AppendAssoc4(TypeDecls(ts), QUERY_OPEN, QueryFields(ts), "}");
  }
}
