/**
 * The loop in `getOracleORM` that folds the flat catalog records into one group per
 * raw `(owner, tableName)` pair (index.js:316-341). Each group keeps the raw names in its
 * `*Value` fields beside their sanitised copies, and its columns in catalog order.
 */
module Normalizer {
  import opened Text
  import opened Catalog

  /** `{columnName, columnNameValue, dataType}`: the sanitised name, the raw name and the classified type. */
  datatype Column = Column(columnName: string, columnNameValue: string, dataType: string)

  /** One element of `orm`. */
  datatype TableGroup = TableGroup(
    owner: string, ownerValue: string,
    tableName: string, tableNameValue: string,
    columns: seq<Column>)

  /** The raw `(owner, tableName)` pair that groups are keyed by. */
  type Key = (string, string)

  function KeyOf(t: CatalogTuple): Key { (t.owner, t.tableName) }

  function GroupKey(g: TableGroup): Key { (g.ownerValue, g.tableNameValue) }

  function GroupKeys(orm: seq<TableGroup>): (ks: seq<Key>)
    ensures |ks| == |orm|
    ensures forall i :: 0 <= i < |orm| ==> ks[i] == GroupKey(orm[i])
  {
    if |orm| == 0 then [] else GroupKeys(orm[..|orm| - 1]) + [GroupKey(orm[|orm| - 1])]
  }

  function ColumnOf(t: CatalogTuple): Column
  {
    Column(Sanitize(t.columnName), t.columnName, t.dataType)
  }

  function NewGroup(t: CatalogTuple): TableGroup
  {
    TableGroup(Sanitize(t.owner), t.owner, Sanitize(t.tableName), t.tableName, [ColumnOf(t)])
  }

  /** `_.findIndex(orm, {ownerValue, tableNameValue})`: the first group with key `k`, or -1. */
  function FindIndex(orm: seq<TableGroup>, k: Key): (r: int)
    ensures -1 <= r < |orm|
    ensures r >= 0 ==> GroupKey(orm[r]) == k
    ensures forall j :: 0 <= j < |orm| && (r < 0 || j < r) ==> GroupKey(orm[j]) != k
  {
    if |orm| == 0 then -1
    else if GroupKey(orm[0]) == k then 0
    else
      var r := FindIndex(orm[1..], k);
      if r < 0 then -1 else r + 1
  }

  /** One iteration of the loop body: start a new group, or append the column to the existing one. */
  function Step(orm: seq<TableGroup>, t: CatalogTuple): seq<TableGroup>
  {
    var i := FindIndex(orm, KeyOf(t));
    if i < 0 then orm + [NewGroup(t)]
    else orm[i := orm[i].(columns := orm[i].columns + [ColumnOf(t)])]
  }

  /** The `orm` array after the loop has run over all of `ts`. */
  function Normalized(ts: seq<CatalogTuple>): seq<TableGroup>
  {
    if |ts| == 0 then [] else Step(Normalized(ts[..|ts| - 1]), ts[|ts| - 1])
  }

  // ---------------------------------------------------------------------------
  // Reference definitions the result is compared with
  // ---------------------------------------------------------------------------

  /** The columns contributed by the records with key `k`, in input order. */
  function ColumnsFor(ts: seq<CatalogTuple>, k: Key): seq<Column>
  {
    if |ts| == 0 then []
    else ColumnsFor(ts[..|ts| - 1], k) + (if KeyOf(ts[|ts| - 1]) == k then [ColumnOf(ts[|ts| - 1])] else [])
  }

  /** The position of the first record with key `k`, or `|ts|` when there is none. */
  function FirstOccurrence(ts: seq<CatalogTuple>, k: Key): (r: nat)
    ensures r <= |ts|
    ensures r < |ts| ==> KeyOf(ts[r]) == k
    ensures forall j :: 0 <= j < r ==> KeyOf(ts[j]) != k
  {
    if |ts| == 0 then 0
    else
      var r := FirstOccurrence(ts[..|ts| - 1], k);
      if r < |ts| - 1 then r
      else if KeyOf(ts[|ts| - 1]) == k then |ts| - 1
      else |ts|
  }

  function TotalColumns(orm: seq<TableGroup>): nat
  {
    if |orm| == 0 then 0 else TotalColumns(orm[..|orm| - 1]) + |orm[|orm| - 1].columns|
  }

  /** A group keeps each raw name beside its sanitised copy and has at least one column. */
  predicate WellFormedGroup(g: TableGroup)
  {
    && g.owner == Sanitize(g.ownerValue)
    && g.tableName == Sanitize(g.tableNameValue)
    && |g.columns| >= 1
    && forall c :: c in g.columns ==> c.columnName == Sanitize(c.columnNameValue)
  }

  predicate GroupsWellFormed(orm: seq<TableGroup>)
  {
    forall i :: 0 <= i < |orm| ==> WellFormedGroup(orm[i])
  }

  predicate DistinctGroupKeys(orm: seq<TableGroup>)
  {
    forall i, j :: 0 <= i < j < |orm| ==> GroupKey(orm[i]) != GroupKey(orm[j])
  }

  /** Every record's key has a group. */
  predicate CoversInput(ts: seq<CatalogTuple>, orm: seq<TableGroup>)
  {
    forall k :: 0 <= k < |ts| ==> KeyOf(ts[k]) in GroupKeys(orm)
  }

  /** Every group's key is the key of some record. */
  predicate OnlyInputKeys(ts: seq<CatalogTuple>, orm: seq<TableGroup>)
  {
    forall i :: 0 <= i < |orm| ==> FirstOccurrence(ts, GroupKey(orm[i])) < |ts|
  }

  /** Groups appear in the order in which their keys first occur. */
  predicate FirstSeenOrder(ts: seq<CatalogTuple>, orm: seq<TableGroup>)
  {
    forall i, j :: 0 <= i < j < |orm| ==>
      FirstOccurrence(ts, GroupKey(orm[i])) < FirstOccurrence(ts, GroupKey(orm[j]))
  }

  /** Each group holds the columns of exactly the records with its key, in input order. */
  predicate ColumnsInInputOrder(ts: seq<CatalogTuple>, orm: seq<TableGroup>)
  {
    forall i :: 0 <= i < |orm| ==> orm[i].columns == ColumnsFor(ts, GroupKey(orm[i]))
  }

  /**
   * `orm` is the grouping of `ts`: well-formed groups with distinct raw keys, one for each
   * key that occurs in `ts` and no other, in order of first occurrence, each holding the
   * columns of exactly the records with its key, in input order.
   */
  predicate NormalForm(ts: seq<CatalogTuple>, orm: seq<TableGroup>)
  {
    && GroupsWellFormed(orm)
    && DistinctGroupKeys(orm)
    && CoversInput(ts, orm)
    && OnlyInputKeys(ts, orm)
    && FirstSeenOrder(ts, orm)
    && ColumnsInInputOrder(ts, orm)
  }

  // ---------------------------------------------------------------------------
  // Lemmas
  // ---------------------------------------------------------------------------

  lemma ColumnsForSnoc(ts: seq<CatalogTuple>, t: CatalogTuple, k: Key)
    ensures ColumnsFor(ts + [t], k) == ColumnsFor(ts, k) + (if KeyOf(t) == k then [ColumnOf(t)] else [])
  {
    assert (ts + [t])[..|ts|] == ts;
  }

  lemma FirstOccurrenceSnoc(ts: seq<CatalogTuple>, t: CatalogTuple, k: Key)
    ensures FirstOccurrence(ts + [t], k) ==
      if FirstOccurrence(ts, k) < |ts| then FirstOccurrence(ts, k)
      else if KeyOf(t) == k then |ts| else |ts| + 1
  {
    assert (ts + [t])[..|ts|] == ts;
  }

  /** A key that no record carries collects no columns. */
  lemma {:induction false} ColumnsForAbsent(ts: seq<CatalogTuple>, k: Key)
    requires forall j :: 0 <= j < |ts| ==> KeyOf(ts[j]) != k
    ensures ColumnsFor(ts, k) == []
  {
    if |ts| > 0 {
      ColumnsForAbsent(ts[..|ts| - 1], k);
    }
  }

  /** A step renames no key: it appends the record's key exactly when that key had no group. */
  lemma StepKeys(orm: seq<TableGroup>, t: CatalogTuple)
    ensures GroupKeys(Step(orm, t)) ==
      if FindIndex(orm, KeyOf(t)) < 0 then GroupKeys(orm) + [KeyOf(t)] else GroupKeys(orm)
  {
    var orm' := Step(orm, t);
    if FindIndex(orm, KeyOf(t)) < 0 {
      assert GroupKeys(orm') == GroupKeys(orm) + [KeyOf(t)];
    } else {
      assert GroupKeys(orm') == GroupKeys(orm);
    }
  }

  lemma StepWellFormed(orm: seq<TableGroup>, t: CatalogTuple)
    requires GroupsWellFormed(orm)
    ensures GroupsWellFormed(Step(orm, t))
  {
    var i := FindIndex(orm, KeyOf(t));
    if i >= 0 {
      var orm' := Step(orm, t);
      assert WellFormedGroup(orm'[i]) by {
        assert WellFormedGroup(orm[i]);
        forall c | c in orm'[i].columns ensures c.columnName == Sanitize(c.columnNameValue) {
          if c !in orm[i].columns { assert c == ColumnOf(t); }
        }
      }
    }
  }

  lemma StepDistinct(orm: seq<TableGroup>, t: CatalogTuple)
    requires DistinctGroupKeys(orm)
    ensures DistinctGroupKeys(Step(orm, t))
  {
    StepKeys(orm, t);
    var ks, ks' := GroupKeys(orm), GroupKeys(Step(orm, t));
    assert forall i, j :: 0 <= i < j < |ks| ==> ks[i] != ks[j];
    assert forall i, j :: 0 <= i < j < |ks'| ==> ks'[i] != ks'[j];
  }

  lemma StepCovers(ts: seq<CatalogTuple>, orm: seq<TableGroup>, t: CatalogTuple)
    requires CoversInput(ts, orm)
    ensures CoversInput(ts + [t], Step(orm, t))
  {
    StepKeys(orm, t);
    var i := FindIndex(orm, KeyOf(t));
    var ts' := ts + [t];
    forall k | 0 <= k < |ts'| ensures KeyOf(ts'[k]) in GroupKeys(Step(orm, t)) {
      if k < |ts| {
        assert ts'[k] == ts[k];
      } else if i >= 0 {
        assert GroupKeys(orm)[i] == KeyOf(t);
      }
    }
  }

  lemma StepOnlyInput(ts: seq<CatalogTuple>, orm: seq<TableGroup>, t: CatalogTuple)
    requires OnlyInputKeys(ts, orm)
    ensures OnlyInputKeys(ts + [t], Step(orm, t))
  {
    var orm' := Step(orm, t);
    forall i | 0 <= i < |orm'| ensures FirstOccurrence(ts + [t], GroupKey(orm'[i])) < |ts + [t]| {
      StepKeyAt(orm, t, i);
      FirstOccurrenceSnoc(ts, t, GroupKey(orm'[i]));
    }
  }

  /** After one step, group `i` keeps its key, and a new last group has the record's key. */
  lemma StepKeyAt(orm: seq<TableGroup>, t: CatalogTuple, i: nat)
    requires i < |Step(orm, t)|
    ensures GroupKey(Step(orm, t)[i]) == if i < |orm| then GroupKey(orm[i]) else KeyOf(t)
  {
    var id := FindIndex(orm, KeyOf(t));
    if id < 0 {
      assert Step(orm, t) == orm + [NewGroup(t)];
    } else {
      assert Step(orm, t) == orm[id := orm[id].(columns := orm[id].columns + [ColumnOf(t)])];
    }
  }

  /** When a record's key had no group, no earlier record carried that key. */
  lemma NewKeyIsFresh(ts: seq<CatalogTuple>, orm: seq<TableGroup>, t: CatalogTuple)
    requires CoversInput(ts, orm)
    requires FindIndex(orm, KeyOf(t)) < 0
    ensures forall j :: 0 <= j < |ts| ==> KeyOf(ts[j]) != KeyOf(t)
    ensures FirstOccurrence(ts, KeyOf(t)) == |ts|
  {
    assert KeyOf(t) !in GroupKeys(orm);
  }

  lemma StepOrder(ts: seq<CatalogTuple>, orm: seq<TableGroup>, t: CatalogTuple)
    requires CoversInput(ts, orm) && OnlyInputKeys(ts, orm) && FirstSeenOrder(ts, orm)
    ensures FirstSeenOrder(ts + [t], Step(orm, t))
  {
    var orm' := Step(orm, t);
    StepKeys(orm, t);
    assert |orm'| <= |orm| + 1;
    forall i, j | 0 <= i < j < |orm'|
      ensures FirstOccurrence(ts + [t], GroupKey(orm'[i])) < FirstOccurrence(ts + [t], GroupKey(orm'[j]))
    {
      StepFirstOccurrenceAt(ts, orm, t, i);
      StepFirstOccurrenceAt(ts, orm, t, j);
    }
  }

  /** After one step, an old group's key first occurs where it did, and a new group's key at the new record. */
  lemma StepFirstOccurrenceAt(ts: seq<CatalogTuple>, orm: seq<TableGroup>, t: CatalogTuple, i: nat)
    requires CoversInput(ts, orm) && OnlyInputKeys(ts, orm)
    requires i < |Step(orm, t)|
    ensures FirstOccurrence(ts + [t], GroupKey(Step(orm, t)[i])) ==
      if i < |orm| then FirstOccurrence(ts, GroupKey(orm[i])) else |ts|
  {
    var orm' := Step(orm, t);
    StepKeys(orm, t);
    assert GroupKey(orm'[i]) == GroupKeys(orm')[i];
    FirstOccurrenceSnoc(ts, t, GroupKey(orm'[i]));
    if i < |orm| {
      assert GroupKey(orm[i]) == GroupKeys(orm)[i];
    } else {
      assert FindIndex(orm, KeyOf(t)) < 0;
      NewKeyIsFresh(ts, orm, t);
    }
  }

  lemma StepColumns(ts: seq<CatalogTuple>, orm: seq<TableGroup>, t: CatalogTuple)
    requires CoversInput(ts, orm) && DistinctGroupKeys(orm) && ColumnsInInputOrder(ts, orm)
    ensures ColumnsInInputOrder(ts + [t], Step(orm, t))
  {
    var orm' := Step(orm, t);
    var id := FindIndex(orm, KeyOf(t));
    if id < 0 {
      NewKeyIsFresh(ts, orm, t);
      ColumnsForAbsent(ts, KeyOf(t));
    }
    forall i | 0 <= i < |orm'| ensures orm'[i].columns == ColumnsFor(ts + [t], GroupKey(orm'[i])) {
      ColumnsForSnoc(ts, t, GroupKey(orm'[i]));
      if i < |orm| && i != id {
        assert orm'[i] == orm[i];
        assert id >= 0 ==> GroupKey(orm[id]) == KeyOf(t);
      }
    }
  }

  /** One loop iteration keeps `orm` the grouping of the records seen so far. */
  lemma StepKeepsNormalForm(ts: seq<CatalogTuple>, orm: seq<TableGroup>, t: CatalogTuple)
    requires NormalForm(ts, orm)
    ensures NormalForm(ts + [t], Step(orm, t))
  {
    StepWellFormed(orm, t);
    StepDistinct(orm, t);
    StepCovers(ts, orm, t);
    StepOnlyInput(ts, orm, t);
    StepOrder(ts, orm, t);
    StepColumns(ts, orm, t);
  }

  /** The step lemma for the last record of a non-empty input. */
  lemma StepKeepsNormalFormAt(ts: seq<CatalogTuple>, orm: seq<TableGroup>)
    requires |ts| > 0 && NormalForm(ts[..|ts| - 1], orm)
    ensures NormalForm(ts, Step(orm, ts[|ts| - 1]))
  {
    assert ts[..|ts| - 1] + [ts[|ts| - 1]] == ts;
    StepKeepsNormalForm(ts[..|ts| - 1], orm, ts[|ts| - 1]);
  }

  /** The loop's result is the grouping of its input. */
  lemma {:induction false} NormalizedIsNormalForm(ts: seq<CatalogTuple>)
    ensures NormalForm(ts, Normalized(ts))
  {
    if |ts| > 0 {
      NormalizedIsNormalForm(ts[..|ts| - 1]);
      StepKeepsNormalFormAt(ts, Normalized(ts[..|ts| - 1]));
    }
  }

  /** Every column of every group carries a type the query's `CASE` can produce. */
  predicate GroupsClassified(orm: seq<TableGroup>)
  {
    forall i, j :: 0 <= i < |orm| && 0 <= j < |orm[i].columns| ==> IsClassified(orm[i].columns[j].dataType)
  }

  /** The columns of a key carry the types of the records they come from. */
  lemma {:induction false} ColumnsForClassified(ts: seq<CatalogTuple>, k: Key)
    requires Classified(ts)
    ensures forall j :: 0 <= j < |ColumnsFor(ts, k)| ==> IsClassified(ColumnsFor(ts, k)[j].dataType)
  {
    if |ts| > 0 {
      var init := ts[..|ts| - 1];
      assert Classified(init) by {
        forall i | 0 <= i < |init| ensures IsClassified(init[i].dataType) {
          assert init[i] == ts[i];
        }
      }
      ColumnsForClassified(init, k);
    }
  }

  /** Grouping passes the types through: a classified catalog gives classified groups. */
  lemma NormalizedClassified(ts: seq<CatalogTuple>)
    requires Classified(ts)
    ensures GroupsClassified(Normalized(ts))
  {
    var orm := Normalized(ts);
    NormalizedIsNormalForm(ts);
    forall i, j | 0 <= i < |orm| && 0 <= j < |orm[i].columns| ensures IsClassified(orm[i].columns[j].dataType) {
      ColumnsForClassified(ts, GroupKey(orm[i]));
    }
  }

  lemma {:induction false} TotalColumnsUpdate(orm: seq<TableGroup>, i: nat, g: TableGroup)
    requires i < |orm|
    ensures TotalColumns(orm[i := g]) == TotalColumns(orm) - |orm[i].columns| + |g.columns|
  {
    var n := |orm| - 1;
    if i < n {
      TotalColumnsUpdate(orm[..n], i, g);
      assert orm[i := g][..n] == orm[..n][i := g];
    } else {
      assert orm[i := g][..n] == orm[..n];
    }
  }

  /** Every record contributes exactly one column: nothing is dropped or merged. */
  lemma {:induction false} TotalColumnsIsInputLength(ts: seq<CatalogTuple>)
    ensures TotalColumns(Normalized(ts)) == |ts|
  {
    if |ts| > 0 {
      var init := ts[..|ts| - 1];
      var t := ts[|ts| - 1];
      TotalColumnsIsInputLength(init);
      var orm := Normalized(init);
      var i := FindIndex(orm, KeyOf(t));
      if i < 0 {
        assert (orm + [NewGroup(t)])[..|orm|] == orm;
      } else {
        TotalColumnsUpdate(orm, i, orm[i].(columns := orm[i].columns + [ColumnOf(t)]));
      }
    }
  }

  /** The two catalog records of one table `HR.EMP` make one group holding both columns in order. */
  lemma TwoColumnsOneGroup()
    ensures Normalized([CatalogTuple("HR", "EMP", "ID", "NUMBER"), CatalogTuple("HR", "EMP", "NAME", "STRING")])
         == [TableGroup("HR", "HR", "EMP", "EMP", [Column("ID", "ID", "NUMBER"), Column("NAME", "NAME", "STRING")])]
  {
    var t1, t2 := CatalogTuple("HR", "EMP", "ID", "NUMBER"), CatalogTuple("HR", "EMP", "NAME", "STRING");
    assert [t1, t2][..1] == [t1];
    assert Normalized([t1, t2]) == Step(Normalized([t1]), t2);
    ExampleFirstRecord(t1);
    ExampleSecondRecord(t2);
  }

  lemma ExampleFirstRecord(t1: CatalogTuple)
    requires t1 == CatalogTuple("HR", "EMP", "ID", "NUMBER")
    ensures Normalized([t1]) == [TableGroup("HR", "HR", "EMP", "EMP", [Column("ID", "ID", "NUMBER")])]
  {
    SanitizeFixedPoint("HR");
    SanitizeFixedPoint("EMP");
    SanitizeFixedPoint("ID");
    assert [t1][..0] == [];
  }

  lemma ExampleSecondRecord(t2: CatalogTuple)
    requires t2 == CatalogTuple("HR", "EMP", "NAME", "STRING")
    ensures Step([TableGroup("HR", "HR", "EMP", "EMP", [Column("ID", "ID", "NUMBER")])], t2)
         == [TableGroup("HR", "HR", "EMP", "EMP", [Column("ID", "ID", "NUMBER"), Column("NAME", "NAME", "STRING")])]
  {
    var g1 := TableGroup("HR", "HR", "EMP", "EMP", [Column("ID", "ID", "NUMBER")]);
    assert FindIndex([g1], KeyOf(t2)) == 0;
    ExampleSecondColumn(t2);
    assert Step([g1], t2) == [g1][0 := g1.(columns := g1.columns + [ColumnOf(t2)])];
    assert [g1][0 := g1.(columns := g1.columns + [ColumnOf(t2)])] == [g1.(columns := g1.columns + [ColumnOf(t2)])];
    assert g1.columns + [ColumnOf(t2)] == [Column("ID", "ID", "NUMBER"), Column("NAME", "NAME", "STRING")];
  }

  lemma ExampleSecondColumn(t2: CatalogTuple)
    requires t2 == CatalogTuple("HR", "EMP", "NAME", "STRING")
    ensures ColumnOf(t2) == Column("NAME", "NAME", "STRING")
  {
    SanitizeFixedPoint("NAME");
  }

  // ---------------------------------------------------------------------------
  // The loop itself
  // ---------------------------------------------------------------------------

  /** `_.findIndex` as a linear search. */
  method FindGroup(orm: seq<TableGroup>, k: Key) returns (ind: int)
    ensures ind == FindIndex(orm, k)
  {
    ind := 0;
    while ind < |orm| && GroupKey(orm[ind]) != k
      invariant 0 <= ind <= |orm|
      invariant forall j :: 0 <= j < ind ==> GroupKey(orm[j]) != k
    {
      ind := ind + 1;
    }
    if ind == |orm| {
      ind := -1;
    }
  }

  /** index.js:315-341: builds `orm` from the parsed catalog records `_orm`. */
  method Normalize(ts: seq<CatalogTuple>) returns (orm: seq<TableGroup>)
    ensures orm == Normalized(ts)
    ensures NormalForm(ts, orm)
    ensures TotalColumns(orm) == |ts|
  {
    orm := [];
    var n := 0;
    while n < |ts|
      invariant 0 <= n <= |ts|
      invariant orm == Normalized(ts[..n])
    {
      var value := ts[n];
      var ind := FindGroup(orm, KeyOf(value));
      if ind == -1 {
        orm := orm + [NewGroup(value)];
      } else {
        var group := orm[ind];
        group := group.(columns := group.columns + [ColumnOf(value)]);
        orm := orm[ind := group];
      }
      assert ts[..n + 1][..n] == ts[..n];
      n := n + 1;
    }
    assert ts[..n] == ts;
    NormalizedIsNormalForm(ts);
    TotalColumnsIsInputLength(ts);
  }
}
