/** The rows describing a service's variables and their order by id (src/variable-container.c). */
module VariableMeta {

  datatype VarMeta = VarMeta(id: int, name: string, defaultValue: string)

  function InsertById(row: VarMeta, rows: seq<VarMeta>): seq<VarMeta> {
    if rows == [] || row.id <= rows[0].id then [row] + rows
    else [rows[0]] + InsertById(row, rows[1..])
  }

  /** The rows ordered by id, as qsort leaves them. */
  function CreateSortedMeta(rows: seq<VarMeta>): seq<VarMeta> {
    if rows == [] then [] else InsertById(rows[0], CreateSortedMeta(rows[1..]))
  }

  ghost predicate DistinctIds(rows: seq<VarMeta>) {
    forall i, j :: 0 <= i < j < |rows| ==> rows[i].id != rows[j].id
  }

  ghost predicate Increasing(rows: seq<VarMeta>) {
    forall i, j :: 0 <= i < j < |rows| ==> rows[i].id < rows[j].id
  }

  lemma {:induction false} InsertByIdSorts(row: VarMeta, rows: seq<VarMeta>)
    requires Increasing(rows) && forall r :: r in rows ==> r.id != row.id
    ensures Increasing(InsertById(row, rows)) && |InsertById(row, rows)| == |rows| + 1
    ensures forall r :: r in InsertById(row, rows) <==> r == row || r in rows
  {
    if rows != [] && row.id > rows[0].id {
      InsertByIdSorts(row, rows[1..]);
      var tail := InsertById(row, rows[1..]);
      assert rows == [rows[0]] + rows[1..];
      forall j | 0 <= j < |tail|
        ensures rows[0].id < tail[j].id
      {
        assert tail[j] in tail;
      }
    }
  }

  lemma {:induction false} CreateSortedMetaSorts(rows: seq<VarMeta>)
    requires DistinctIds(rows)
    ensures Increasing(CreateSortedMeta(rows)) && |CreateSortedMeta(rows)| == |rows|
    ensures forall r :: r in CreateSortedMeta(rows) <==> r in rows
  {
    if rows != [] {
      CreateSortedMetaSorts(rows[1..]);
      InsertByIdSorts(rows[0], CreateSortedMeta(rows[1..]));
      assert rows == [rows[0]] + rows[1..];
    }
  }

  /** The ids are 0 to n-1, each once, in whatever order. */
  ghost predicate IdsAreIndices(rows: seq<VarMeta>) {
    && (forall i :: 0 <= i < |rows| ==> 0 <= rows[i].id < |rows|)
    && DistinctIds(rows)
  }

  lemma {:induction false} LowerBound(rows: seq<VarMeta>, i: nat)
    requires i < |rows| && Increasing(rows)
    ensures rows[0].id + i <= rows[i].id
  {
    if i > 0 {
      LowerBound(rows, i - 1);
    }
  }

  lemma {:induction false} UpperBound(rows: seq<VarMeta>, i: nat)
    requires i < |rows| && Increasing(rows)
    ensures rows[i].id <= rows[|rows| - 1].id - (|rows| - 1 - i)
    decreases |rows| - i
  {
    if i < |rows| - 1 {
      UpperBound(rows, i + 1);
    }
  }

  /** Sorting rows whose ids are the indices puts row i at index i. */
  lemma SortedMetaIsIndexed(rows: seq<VarMeta>)
    requires IdsAreIndices(rows)
    ensures |CreateSortedMeta(rows)| == |rows|
    ensures forall i :: 0 <= i < |rows| ==> CreateSortedMeta(rows)[i].id == i && CreateSortedMeta(rows)[i] in rows
  {
    var s := CreateSortedMeta(rows);
    CreateSortedMetaSorts(rows);
    forall i | 0 <= i < |s|
      ensures s[i].id == i
    {
      assert s[0] in rows && s[|s| - 1] in rows;
      LowerBound(s, i);
      UpperBound(s, i);
    }
  }
}
