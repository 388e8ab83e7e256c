# db-to-graphql, modelled in Dafny

db-to-graphql reads the column catalog of an Oracle database and exposes every table through a
generated GraphQL API. It has three stages.

- **Catalog to model** (`getOracleORM`). One SQL query lists the columns of every admitted table.
  Each column's Oracle type tag is sorted into `STRING` or `NUMBER`. The rows are grouped by their
  raw `(owner, tableName)` pair. A nested model is then built: owners keyed by sanitised name, and
  inside each owner its tables keyed by sanitised name. Each table keeps its raw names, two
  parallel column lists (raw and sanitised), one property per column and the connection.
- **Model to API** (`generateGraphQL`). The call first checks the configuration and the database
  type. It then writes one GraphQL object type per table of the selected owners, plus a `Query`
  type with one field per table. Each field has one optional argument per column. It also
  generates one root function per table. A root function turns its non-null arguments into `AND`
  filters and calls `findAll`.
- **Query** (`getData`). The call checks its arguments. It then builds the PL/SQL block
  `BEGIN OPEN :cursor FOR SELECT … FROM owner.name WHERE (ROWNUM <= maxRows) [AND (…)]; END;`
  and its bind variables. Each returned row is decoded into a record keyed by the last
  space-separated token of each select column. The row cap `maxRows` is module state: it starts
  at 200 and `setMaxRows` changes it.

Module by module:

| module | file | contents |
|---|---|---|
| `Wrappers` | wrappers.dfy | `Option` and `Result` |
| `Text` | text.dfy | the sanitiser `replace(/\W/g, '')`, `join`, `split`, the last token of a string, decimal rendering |
| `OrderedDict` | dict.dfy | JavaScript objects as ordered property lists. Assigning an existing property keeps its place; a new property is appended |
| `Catalog` | catalog.dfy | SQL `LIKE`, the `CASE` classifier, the `REGEXP_INSTR` identifier filter, `translateJStoGraphQLType` |
| `Normalizer` | normalizer.dfy | the grouping loop over the catalog rows, as a method proved against a fold |
| `SchemaModel` | model.dfy | the nested model and the loops that build it |
| `Query` | query.dfy | `getData`'s checks, statement text and bind variables. The class `Session` holds `maxRows` |
| `Resolver` | resolver.dfy | what a generated root function does when it is called, and `findAll` |
| `RowDecoder` | rows.dfy | decoding one positional row into a record |
| `GraphQLLexer` | lexer.dfy | the part of GraphQL's lexical grammar (section 2.1 of the GraphQL specification) that the generated text uses |
| `Surface` | surface.dfy | the schema text, its loops, and its token structure |
| `Api` | api.dfy | `validateDatabaseConfig` and `generateGraphQL` end to end |

Loops in the source are methods with loop invariants: the normaliser, the model build, the text
accumulation, the filter pushes, the select list, the `WHERE` clause and the row decoder. Each
method is proved equal to a recursive specification function, and the properties are proved as
lemmas about those functions. `maxRows` is the one field of `Query.Session`.

Notes on where the code and its documentation differ (the model follows the code):

- Field and argument names in the schema text are the **raw** column names. The root function
  declares its parameters under the **sanitised** names (index.js:83), and it looks its table up
  under the raw owner and table name (index.js:86, 91). The lookup therefore finds the table
  exactly when both raw names are word-only (`Resolver.LookupFindsItself`).
- The classifier maps `FLOAT` to `STRING` and every `LONG…` tag, `LONG RAW` included, to
  `NUMBER`.
- `validateDatabaseConfig` checks the three fields only for `null`. Empty strings pass.

## Model

| member | source | states |
|---|---|---|
| Text.Sanitize | index.js:320-325 | a sanitised name holds only letters, digits and `_`, and is no longer than the raw name |
| Text.SanitizeAppend | index.js:320-322 | sanitising acts on each character on its own: it distributes over concatenation |
| Text.SanitizeFixedPoint | index.js:320-322 | the sanitiser leaves a name unchanged exactly when it is word-only (both directions) |
| Text.SanitizeIdempotent | index.js:335 | sanitising twice gives what sanitising once gives |
| Text.SplitJoin | index.js:199 | splitting a joined list on a separator character that no part contains gives back the parts |
| Text.LastToken | index.js:199-201 | the last piece after `split(' ')` has no space and is no longer than the string |
| Text.LastTokenIsSuffix | index.js:199-201 | that piece is a suffix, preceded by a space unless it is the whole string |
| Text.LastTokenAfterSpace | index.js:199-201 | in `a + " " + b` with no space in `b`, the last piece is `b` |
| Text.LastTokenOfSpaceFree | index.js:199-201 | a string without a space is its own last piece |
| Text.LastTokenIsLastPiece | index.js:199-201 | `LastToken` equals the last element of `Split(s, ' ')` (an independent definition of `split`) |
| Text.NatToString | index.js:162 | the decimal rendering of a number is a non-empty run of digits |
| Text.ParseNatToString | index.js:166 | reading a decimal rendering back gives the number |
| Text.NatToStringInjective | index.js:166 | different numbers render differently |
| Text.NameNumberInjective | index.js:162-166 | a name that does not end in a digit, followed by a number, determines both the name and the number |
| OrderedDict.Put | index.js:354 | after `obj[k] = v`, `k` reads `v`, every other key reads as before, and distinct keys stay distinct |
| OrderedDict.PutKeys | index.js:352-354 | an existing property keeps its position; a new one is appended at the end |
| OrderedDict.GetSomeIffKey | index.js:352 | a property is defined exactly when its key is among the keys |
| Catalog.LikeLiteral | index.js:242-243 | a `LIKE` pattern without wildcards matches exactly itself |
| Catalog.LikePrefix | index.js:241 | `LIKE 'X%'` is a prefix test (both directions) |
| Catalog.LikeLob | index.js:248 | `LIKE '_LOB'` holds exactly for four characters ending in `LOB` |
| Catalog.EvalCase | index.js:241-250 | a searched `CASE` yields the `ELSE` value or the result of one of its arms |
| Catalog.ClassifyDataType | index.js:241-250 | every tag, known or not, is classified as `STRING` or `NUMBER` |
| Catalog.ClassifyUnrolled | index.js:241-250 | the classification equals the arms read top to bottom, as nested prefix and equality tests |
| Catalog.ClassifyNumberIff | index.js:245-246 | a tag is `NUMBER` exactly when it starts with `LONG` or is `NUMBER` |
| Catalog.ClassifyExamples | index.js:241-250 | `VARCHAR2`, `CLOB`, `FLOAT`, `TIMESTAMP(6)` give `STRING`; `NUMBER` and `LONG RAW` give `NUMBER` |
| Catalog.GraphQLType | index.js:116-125 | the scalar is `Float` or `String`, and `Float` exactly for `NUMBER` |
| Catalog.GraphQLTypeOfTag | index.js:116-125 | a catalog column surfaces as `Float` exactly when its Oracle tag is `NUMBER` or starts with `LONG` |
| Catalog.RegexpInstr | index.js:255-256 | the position is 0 exactly when every character is in `[[:alnum:]_*]`; otherwise it is the 1-based position of the first character outside that class |
| Catalog.AdmittedNameIsSanitized | index.js:255-256 | an admitted name without `*` is left unchanged by the sanitiser |
| Catalog.AdmittedNameHasNoSpace | index.js:255 | an admitted name contains no space |
| Catalog.ToTuple | index.js:237-251 | a catalog row keeps its names as stored and gets a type of `STRING` or `NUMBER`, `NUMBER` exactly when its tag starts with `LONG` or is `NUMBER` |
| Normalizer.FindIndex | index.js:317 | `_.findIndex` gives the first group with the key, or -1 when no group has it |
| Normalizer.FirstOccurrence | index.js:316-318 | the reference position of the first record with a key, used to state first-seen order |
| Normalizer.StepKeys | index.js:317-331 | one iteration appends the record's key exactly when no group had it, and renames no key |
| Normalizer.StepKeepsNormalForm | index.js:316-341 | one iteration keeps `orm` the grouping of the records seen so far |
| Normalizer.NormalizedIsNormalForm | index.js:316-341 | groups are well formed and pairwise distinct in key. Every record's key has a group, and every group comes from a record. Groups appear in first-seen order. Each group holds exactly its records' columns, in input order |
| Normalizer.NormalizedClassified | index.js:319-331 | grouping passes the types through: when every record has a type the `CASE` produces, so does every column of every group |
| Normalizer.TotalColumnsIsInputLength | index.js:316-341 | the groups hold as many columns as there are records: none dropped, none merged |
| Normalizer.TwoColumnsOneGroup | index.js:316-341 | two records of `HR.EMP` make one group with both columns, in order |
| Normalizer.FindGroup | index.js:317 | the linear search returns the `findIndex` result |
| Normalizer.Normalize | index.js:315-341 | the loop's result is the fold, in normal form, with one column per record |
| SchemaModel.TableWithHeader | index.js:355-361 | a table keeps its group's raw name and owner, the connection and `DB_TYPE = 'ORACLE'` |
| SchemaModel.TableWithLists | index.js:367-368 | `selectColumns` lists the raw and `selectColumnsFormatted` the sanitised names of the columns, in group order |
| SchemaModel.TableWithProperties | index.js:364-366 | a table has one property per sanitised column name, holding the raw name and type of the last column with that name |
| SchemaModel.LastColumnNamedFound | index.js:364 | every column's sanitised name has a property |
| SchemaModel.LastColumnNamedIn | index.js:364-366 | every property comes from a column with that sanitised name, and holds the raw name and type of some column |
| SchemaModel.LastGroupAtIn | index.js:354 | the group a lookup by sanitised names finds is one of the groups |
| SchemaModel.DistinctNamesKeepColumnOrder | index.js:363-369 | when sanitised column names are distinct, the properties are the columns in group order |
| SchemaModel.TableOfValid | index.js:354-369 | the table built for a well-formed group satisfies the table invariant |
| SchemaModel.AddGroupValid | index.js:352-369 | one iteration of the build keeps the model valid and keeps its connection |
| SchemaModel.BuiltValid | index.js:351-371 | the built model is valid and carries the connection it was read with |
| SchemaModel.LookupBuilt | index.js:354 | a table looked up by sanitised names is the table of the last group with those names: later groups overwrite earlier ones |
| SchemaModel.BuiltClassified | index.js:364-366 | every property of a built table holds the type of one of its group's columns, so classified groups give classified properties |
| SchemaModel.BuiltConnection | index.js:346 | the model's `DB_CONNECTION` is the configuration passed in |
| SchemaModel.OwnersBuilt | index.js:352 | an owner is present exactly when some group has that sanitised owner name |
| SchemaModel.BuildTable | index.js:354-369 | the statement sequence for one group builds `TableOf` of that group |
| SchemaModel.BuildModel | index.js:343-372 | the loop builds `Built(orm, conn)`, which is valid when the groups are well formed |
| Query.Session.constructor | index.js:9 | `maxRows` starts at 200 |
| Query.Session.SetMaxRows | index.js:11-13 | `maxRows` becomes the value passed in |
| Query.PreparedRejects | index.js:128-134 | the rejections happen exactly in the documented cases: a missing table, name or owner, or a null or empty select list, is rejected first; then a non-null but empty filter list |
| Query.StatementShape | index.js:143-176 | an accepted statement begins with the cursor, the select list, `owner.name` and the row cap, whether or not there are filters, and ends with `; END;` |
| Query.UnfilteredStatement | index.js:172-176 | without filters the text is exactly `BEGIN OPEN :cursor FOR SELECT c1,…,cn FROM owner.name WHERE (ROWNUM <= maxRows); END;`, and only the cursor is bound |
| Query.SelectListRoundTrip | index.js:144-149 | when no column contains a comma, the columns can be read back from the select list |
| Query.ClausesAreConjunction | index.js:154-168 | when every operation is `AND`, the clauses are the comparisons joined by ` AND `: `LIKE` for `STRING` columns, `=` for the others, each bound to `:name` followed by the filter's position |
| Query.CursorKept | index.js:136-138 | the output cursor stays bound whatever the filters are |
| Query.BindsKeys | index.js:166 | the bound names are `cursor` plus one name per filter, the raw column name followed by its position |
| Query.BindsValue | index.js:166 | filter `i`'s name is bound to its value unless a later filter produces the same name |
| Query.BindsPositional | index.js:162-166 | when no raw column name ends in a digit, every filter keeps its own value |
| Query.BindNameCollision | index.js:166 | `A1` at position 0 and `A` at position 10 share the bind name `A10` |
| Query.TwoFilterExample | index.js:155-169 | a `STRING` column `A` and a `NUMBER` column `B` give ` AND ( A LIKE :A0 AND B = :B1)` |
| Query.Session.PrepareStatement | index.js:127-176 | the method's checks, text and binds are those of `Prepared` at the current `maxRows` |
| Query.Session.AppendConditions | index.js:153-170 | the loop appends the row cap, ` AND (` and the clauses, and binds every filter |
| Query.AppendSelectList | index.js:143-149 | the loop appends the columns separated by commas |
| Resolver.FiltersFollowArguments | index.js:84-89 | there is one filter per non-null argument, in column order, each with the argument's value, the column's property and `AND` |
| Resolver.FiltersDefined | index.js:86 | when every listed column has a property, collecting filters cannot fail |
| Resolver.OnlyListedArgumentsRead | index.js:83-85 | only the arguments named by `selectColumnsFormatted` affect the filters |
| Resolver.NoArgumentsNoFilters | index.js:90-93 | with no non-null argument there are no filters |
| Resolver.LookupFindsItself | index.js:86 | the lookup by raw names finds a table of a valid model exactly when both raw names are word-only, and then finds that table itself |
| Resolver.ResolvedCallAccepted | index.js:90-93 | such a call reaches `getData` with its own table and select list, never with an empty filter list, and `getData` accepts it |
| Resolver.BuildWhereColumns | index.js:84-89 | the push loop computes `CollectFilters`, stopping at the first missing property |
| RowDecoder.DecodedKeys | index.js:198-207 | the record's keys are the last tokens of the select columns |
| RowDecoder.DecodedValue | index.js:200-205 | a column's key holds its cell, or `null`, unless a later column has the same last token |
| RowDecoder.DecodedPositional | index.js:198-207 | with pairwise different last tokens, every column's key holds its own cell |
| RowDecoder.AdmittedColumnIsOwnKey | index.js:199-201 | a column name the catalog admits is its own key |
| RowDecoder.AliasIsKey | index.js:199-201 | `COUNT(*) TOTAL` is keyed `TOTAL` |
| RowDecoder.DecodeRow | index.js:192-209 | the loop's record is `Decoded` over all select columns |
| RowDecoder.CollectData | index.js:179-219 | `getData` resolves to an array holding exactly one record, the one decoded from the first row |
| GraphQLLexer.LexAppend | index.js:99 | lexing distributes over a concatenation whose boundary no name crosses |
| GraphQLLexer.LexName | index.js:99 | a GraphQL name on its own is one token |
| Surface.KeepNamed | index.js:47-49 | filtering keeps at most the owners it is given |
| Surface.KeepNamedMembers | index.js:46-50 | an owner is kept exactly when its `name` is listed |
| Surface.KeepNamedIsSubsequence | index.js:47-49 | the kept owners keep their order |
| Surface.NoSelectionKeepsAll | index.js:51-53 | without a selection every owner is used |
| Surface.TablesOfMembers | index.js:56-57 | a table is surfaced exactly when it belongs to one of the selected owners |
| Surface.GraphQLTypeIsName | index.js:116-125 | both scalar names are GraphQL names |
| Surface.LexFields | index.js:61-70 | with the field separator restored, a table's fields lex as `name : Type` for each column, in property order |
| Surface.LexArgs | index.js:64-67 | a `Query` field's arguments lex as `name : Type = null` for each column, in property order |
| Surface.LexTypeDecl | index.js:59-71 | with the separator restored, a table's type lexes as `type owner_name {` followed by its fields and `}` |
| Surface.LexQueryField | index.js:58-72 | a table's `Query` field lexes as `owner_name (` followed by its arguments, `) : [ owner_name ]` |
| Surface.RenderingsEnd | index.js:71-72 | the types end with `}` and the `Query` fields end with `]` |
| Surface.LexTypeDecls | index.js:56-74 | with the field separator restored, the types of all tables lex to their tokens, table after table |
| Surface.LexQueryFields | index.js:56-74 | the `Query` fields of all tables lex to their tokens, table after table |
| Surface.LexSurface | index.js:56-77 | with GraphQL names and the field separator restored, the schema text is one type per table followed by `type Query {`, one field per table, and `}`, in table order |
| Surface.AdjacentFieldsMerge | index.js:63 | two fields written with no separator lex as `a : TypeB : TypeB'`: the first type and the second name fuse |
| Surface.TypeDeclAsWrittenIsMalformed | index.js:59-71 | for `HR.EMP` with `ID NUMBER` and `NAME STRING`, the type as written lexes with a field typed `FloatNAME`, unlike the intended tokens |
| Surface.EmitTable | index.js:58-72 | the column loop appends the table's type, with the field separator restored, to `graphqlSchema` and its field to `schemaQuery` |
| Surface.EmitSchema | index.js:56-74 | the table loop appends the types, with the field separator restored, and the fields of all of an owner's tables |
| Surface.GenerateSurface | index.js:42-77 | the nested loops build exactly `Sdl(m, selected)`, the schema text with the field separator restored |
| Api.ValidateDatabaseConfig | index.js:110-114 | the configuration passes exactly when it is present with all three fields; otherwise the message is `The database configuration is invalid.` |
| Api.GeneratedRejects | index.js:28-33 | the call fails exactly when the configuration is unusable or the type is not `Oracle`. The configuration is checked first, and each failure has its own message |
| Api.GeneratedModelValid | index.js:37 | the model read on success is valid and carries the caller's configuration |
| Api.RootsLastWins | index.js:81-95 | the root function of a type name is that of the last table with that name |
| Api.RootsCoverTables | index.js:81-97 | every surfaced table has a root function under its type name, and there are no others |
| Api.SurfacedTableInModel | index.js:56-57 | every surfaced table is stored in the model under some owner and table key |
| Api.RootsResolve | index.js:83-93 | every root function of a table with word-only raw names resolves its own table and makes a call `getData` accepts |
| Api.BindRoots | index.js:80-97 | the nested loops bind exactly `Roots` of the surfaced tables |
| Api.GeneratedColumnTypes | index.js:364-366 | when every catalog record carries a type the `CASE` produces, so does every property of every table of the model |
| Api.GenerateGraphQL | index.js:26-104 | the method's result is `Generated`: the checks, the model, the schema text with the field separator restored, and the root functions |

## Left out

- Oracle I/O is not modelled: connections, `execute`, cursors, streams and `close`. The catalog
  rows are a parameter of `Api.GenerateGraphQL`, and one row is a parameter of
  `RowDecoder.DecodeRow`. The SQL itself is not executed. This includes the synonym branch with
  its `NOT EXISTS` check (index.js:257-285); only the `CASE`, the identifier filter and the
  direct branch's `WHERE` conditions (`Catalog.DirectRowAdmitted`) are modelled.
- Api.GenerateGraphQL: the catalog parameter is any sequence of records. It is not limited to
  the records the query can return, whose types are always `STRING` or `NUMBER`, since both
  branches use the same `CASE`. `Api.GeneratedColumnTypes` states what follows when the records
  carry such types (`Catalog.Classified`).
- `vm` evaluation is not modelled; the model builds the structures the generated code would
  build. Several things the evaluated code would hit are left out:
  - `dbConfig` is not in the sandbox at index.js:346 and 360. The model stores the
    configuration passed in.
  - `root` at index.js:39 is an undeclared name. The model treats the root functions as the
    result's `root`.
  - A sanitised key equal to `DB_CONNECTION`, `DB_TYPE`, `name`, `owner`, `findAll`,
    `selectColumns` or `selectColumnsFormatted` would collide with a fixed property.
  - JavaScript puts integer-like keys first in property order. The model keeps insertion order.
  - The generated code is a `SyntaxError` for some names the catalog admits, where the model
    builds the structure anyway (`Api.Generated` returns `Ok`):
    - a sanitised owner, table or column name that is empty or starts with a digit. The filter
      at index.js:255-256 admits `*`, which the sanitiser removes, so a column named `*` gives
      `….Tables.EMP. = {}` in the code of index.js:352-368, run at index.js:348 and 370;
    - a raw owner or table name that is not a JavaScript identifier (`A*B`, or an owner the
      filter does not check, such as `#`). It breaks `root.<owner>_<name> = …` at index.js:83,
      run at index.js:95;
    - two columns of one table that sanitise alike (`A` and `A*`). They give `function({A,A})`
      at index.js:83, a duplicate parameter name in a destructuring pattern;
    - a raw column name with `*` or a leading digit. It breaks `bindVars.<name><i> = …` at
      index.js:166;
    - a select column whose last space-separated token is not a JavaScript identifier name:
      `A*B` or `1A`, which the filter at index.js:255 admits, or a column ending in a space,
      whose token is empty. It breaks `resRow.<token> = …` built at index.js:199-206 and run at
      index.js:210, so `getData` rejects where `RowDecoder.Decoded` gives a record.
- `buildSchema` (index.js:99) is not modelled; only the tokens of the generated text are. The
  lexer covers names, punctuators and ignored characters, not numbers, strings or comments.
- The table loop's `typeof == 'object'` test (index.js:62) is left out. The column properties
  are an explicit list, and the `DB_CONNECTION` and `DB_TYPE` entries of the model are not
  iterated as owners.
- Asynchrony is left out: the `await` inside a non-async callback (index.js:312), the data
  callback running after the grouping loop (index.js:307-316), and `stream.on('data')` at
  index.js:191 standing for one row.
- Surface.TypeDecl: the type of a table separates its fields with a space. The code writes no
  separator (index.js:63); see Findings. `Surface.TypeDeclAsWritten` models the text as
  written. Every member listed below builds on `Surface.TypeDecl` and so produces this
  corrected text. For a table with two or more columns, adjacent fields as written fuse
  (`Surface.AdjacentFieldsMerge`, `Surface.TypeDeclAsWrittenIsMalformed`), and `buildSchema`
  at index.js:99 would throw on it, so `generateGraphQL` would reject it where the model
  succeeds.
- Surface.TypeDecls: the types of the tables, with the field separator restored.
- Surface.LexFields: the token structure of the fields with the field separator restored.
- Surface.LexTypeDecls: the token structure of the types with the field separator restored.
- Surface.LexSurface: the token structure of the schema text with the field separator restored.
- Surface.SurfaceText: the schema text, with the field separator restored.
- Surface.Sdl: the schema text of a model and a selection, with the field separator restored.
- Surface.EmitTable: appends the type with the field separator restored.
- Surface.EmitSchema: appends the types with the field separator restored.
- Surface.GenerateSurface: builds the schema text with the field separator restored.
- Api.Generated: returns `Ok` with the corrected text where `buildSchema` (index.js:99) would
  throw on the text as written. It also returns `Ok` in the cases of the `vm` item above where
  the evaluated code would throw a `SyntaxError`.
- Api.GenerateGraphQL: the same as `Api.Generated`, whose result it returns.
- RowDecoder.DecodeRow: returns a record for every row, also where the last token of a select
  column is not a JavaScript identifier name and the evaluated code at index.js:210 throws a
  `SyntaxError` (see the `vm` item above).
- RowDecoder.CollectData: the same as `RowDecoder.DecodeRow`, whose record it returns in the
  array.
- Query.AppendSelectList: assumes no `null` inside `selectColumns`. index.js:146 tests the next
  element for `null`, which for a list without `null` puts a comma before every column but the
  first.
- Query.Session.SetMaxRows: `maxRows` is an integer. A non-integer value would be rendered by
  JavaScript's number formatting, which is not modelled.
- Numbers in `Query.Scalar` are mathematical reals. IEEE doubles and their JavaScript rendering
  are out of scope.
- Resolver.Resolve: a missing property reports `UndefinedColumn` and a missing table reports
  `UndefinedTable`, in place of a `TypeError`. The `.catch` that logs and swallows errors
  (index.js:91, 93) is not modelled.
- Catalog.RegexpInstr: `[:alnum:]` is read as ASCII letters and digits. Oracle's locale-dependent
  classes are out of scope.

## Findings

| source | as written | input that shows it | evidently intended | confidence | as-written member | corrected member |
|---|---|---|---|---|---|---|
| index.js:63 | the fields of a type are appended with no separator between them | table `HR.EMP` with columns `ID` (`NUMBER`) and `NAME` (`STRING`) gives `type HR_EMP {ID: FloatNAME: String}`, which GraphQL lexes with a field typed `FloatNAME` followed by a stray `:` | fields separated by insignificant white space, so that each column is one field | not executed | Surface.TypeDeclAsWrittenIsMalformed | Surface.LexTypeDecl |
