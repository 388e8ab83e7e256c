/**
 * How `getData` turns one positional result row into a record (index.js:192-209): for each
 * select column, the key is the last space-separated token of the column's text and the value
 * is the row's cell at the same position, `null` when the cell is `null` or missing.
 */
module RowDecoder {
  import opened Text
  import opened Catalog
  import opened Query

  type Row = seq<Scalar>
  type Record = map<string, Scalar>

  /** `row[i]`, with a position past the end read as `null`. */
  function Cell(row: Row, i: nat): Scalar
  {
    if i < |row| then row[i] else Null
  }

  /** `resRow` after the assignments for the first `n` select columns. */
  function Decoded(cols: seq<string>, row: Row, n: nat): Record
    requires n <= |cols|
  {
    if n == 0 then map[]
    else Decoded(cols, row, n - 1)[LastToken(cols[n - 1]) := Cell(row, n - 1)]
  }

  /** The keys are the last tokens of the select columns. */
  lemma {:induction false} DecodedKeys(cols: seq<string>, row: Row, n: nat)
    requires n <= |cols|
    ensures Decoded(cols, row, n).Keys == set i | 0 <= i < n :: LastToken(cols[i])
  {
    if n > 0 {
      DecodedKeys(cols, row, n - 1);
      var s1 := set i | 0 <= i < n - 1 :: LastToken(cols[i]);
      var s2 := set i | 0 <= i < n :: LastToken(cols[i]);
      assert s2 == s1 + {LastToken(cols[n - 1])};
    }
  }

  /** A column's key holds its own cell unless a later column has the same last token. */
  lemma {:induction false} DecodedValue(cols: seq<string>, row: Row, n: nat, i: nat)
    requires i < n <= |cols|
    requires forall j :: i < j < n ==> LastToken(cols[j]) != LastToken(cols[i])
    ensures LastToken(cols[i]) in Decoded(cols, row, n)
    ensures Decoded(cols, row, n)[LastToken(cols[i])] == Cell(row, i)
  {
    if i < n - 1 {
      DecodedValue(cols, row, n - 1, i);
    }
  }

  /** With pairwise different last tokens the record has one key per column, each with its own cell. */
  lemma DecodedPositional(cols: seq<string>, row: Row)
    requires forall i, j :: 0 <= i < j < |cols| ==> LastToken(cols[i]) != LastToken(cols[j])
    ensures forall i :: 0 <= i < |cols| ==>
      LastToken(cols[i]) in Decoded(cols, row, |cols|) && Decoded(cols, row, |cols|)[LastToken(cols[i])] == Cell(row, i)
  {
    forall i | 0 <= i < |cols|
      ensures LastToken(cols[i]) in Decoded(cols, row, |cols|) && Decoded(cols, row, |cols|)[LastToken(cols[i])] == Cell(row, i)
    {
      DecodedValue(cols, row, |cols|, i);
    }
  }

  /** A column name the catalog filter admits is its own key. */
  lemma AdmittedColumnIsOwnKey(col: string)
    requires IdentifierAdmitted(col)
    ensures LastToken(col) == col
  {
    AdmittedNameHasNoSpace(col);
    LastTokenOfSpaceFree(col);
  }

  /** An aliased select item is keyed by its alias. */
  lemma AliasIsKey()
    ensures LastToken("COUNT(*) TOTAL") == "TOTAL"
  {
    var s := "COUNT(*) TOTAL";
    assert s == "COUNT(*)" + [' '] + "TOTAL";
    assert ' ' !in "TOTAL";
    LastTokenAfterSpace("COUNT(*)", "TOTAL");
  }

  /** One more select column: its last piece of `split(' ')` is keyed to its cell. */
  lemma DecodedStep(cols: seq<string>, row: Row, i: nat)
    requires i < |cols|
    ensures var pieces := Split(cols[i], ' ');
      Decoded(cols, row, i + 1) == Decoded(cols, row, i)[pieces[|pieces| - 1] := if i >= |row| || row[i] == Null then Null else row[i]]
  {
    LastTokenIsLastPiece(cols[i]);
  }

  /** index.js:192-209: the record filled one column at a time. */
  method DecodeRow(cols: seq<string>, row: Row) returns (resRow: Record)
    ensures resRow == Decoded(cols, row, |cols|)
  {
    resRow := map[];
    var i := 0;
    while i < |cols|
      invariant 0 <= i <= |cols|
      invariant resRow == Decoded(cols, row, i)
    {
      var splitColumnName := Split(cols[i], ' ');
      var key := splitColumnName[|splitColumnName| - 1];
      DecodedStep(cols, row, i);
      if i >= |row| || row[i] == Null {
        resRow := resRow[key := Null];
      } else {
        resRow := resRow[key := row[i]];
      }
      i := i + 1;
    }
  }

  /**
   * The `dbData` array `getData` resolves to: the record decoded from the first row of the
   * stream, the only row it reads, pushed onto the empty array.
   */
  method CollectData(cols: seq<string>, row: Row) returns (dbData: seq<Record>)
    ensures |dbData| == 1
    ensures dbData[0] == Decoded(cols, row, |cols|)
  {
    dbData := [];
    var resRow := DecodeRow(cols, row);
    dbData := dbData + [resRow];
  }
}
