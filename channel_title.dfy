/** The channel-title lookup of `get_channel_title_by_id` (src/helpers.py).
    The Spark DataFrame becomes its list of column names, which may repeat a
    name, plus its rows in order, each row a list of cells aligned with the
    columns. `filter(...).first()` becomes "the first row, in row order, whose
    channelId cell equals the key". */
module ChannelTitle {
  import opened Wrappers

  /** A table: its column names as the table lists them, and its rows in order. */
  datatype Table = Table(columns: seq<string>, rows: seq<seq<string>>)

  /** What every DataFrame guarantees: each row has one cell per column. */
  predicate IsDataFrame(t: Table) {
    forall i :: 0 <= i < |t.rows| ==> |t.rows[i]| == |t.columns|
  }

  /** The message of the assertion that guards the schema. */
  const ColumnsMessage: string :=
    "the map_id_title parameter must have the columns: `channelId` and `channelTitle`"

  /** The failures of the lookup: the failed schema assertion, and Spark's
      error for a column reference that names more than one column. */
  datatype ChannelTitleError = AssertionError(message: string) | AmbiguousReference(column: string)

  /** The schema test: the SET of column names, whatever their order and
      repetitions, is exactly { channelId, channelTitle }. */
  predicate HasExpectedColumns(t: Table)
    ensures HasExpectedColumns(t) <==>
      && "channelId" in t.columns && "channelTitle" in t.columns
      && forall c :: c in t.columns ==> c == "channelId" || c == "channelTitle"
  {
    var names := set c | c in t.columns;
    assert forall x :: x in names <==> x in t.columns;
    assert names == {"channelId", "channelTitle"} <==>
      forall x :: x in names <==> x == "channelId" || x == "channelTitle";
    names == {"channelId", "channelTitle"}
  }

  /** The position of the first column called `name`. */
  function FirstIndex(columns: seq<string>, name: string): (k: nat)
    requires name in columns
    ensures k < |columns| && columns[k] == name
    ensures forall j :: 0 <= j < k ==> columns[j] != name
  {
    if columns[0] == name then 0 else 1 + FirstIndex(columns[1..], name)
  }

  /** The position of the last column called `name`: `Row.asDict()` pairs
      names with cells in order, so a repeated name keeps its last cell. */
  function LastIndex(columns: seq<string>, name: string): (k: nat)
    requires name in columns
    ensures k < |columns| && columns[k] == name
    ensures forall j :: k < j < |columns| ==> columns[j] != name
  {
    if columns[|columns| - 1] == name then |columns| - 1
    else LastIndex(columns[..|columns| - 1], name)
  }

  /** `map_id_title[name]`: a reference to the one column called `name`;
      Spark refuses a name that several columns carry as ambiguous. */
  function ResolveColumn(columns: seq<string>, name: string): (r: Result<nat, ChannelTitleError>)
    requires name in columns
    ensures r.Success? <==> multiset(columns)[name] == 1
    ensures r.Success? ==> r.value < |columns| && columns[r.value] == name
    ensures r.Failure? ==> r.error == AmbiguousReference(name)
  {
    if multiset(columns)[name] == 1 then Success(FirstIndex(columns, name))
    else Failure(AmbiguousReference(name))
  }

  /** The rows whose cell in column `c` equals `id`, in table order. */
  function Filter(rows: seq<seq<string>>, c: nat, id: string): (r: seq<seq<string>>)
    requires forall i :: 0 <= i < |rows| ==> c < |rows[i]|
    ensures |r| <= |rows|
    ensures forall x :: x in r ==> x in rows && c < |x| && x[c] == id
    ensures forall i :: 0 <= i < |rows| && rows[i][c] == id ==> rows[i] in r
  {
    if rows == [] then []
    else if rows[0][c] == id then [rows[0]] + Filter(rows[1..], c, id)
    else Filter(rows[1..], c, id)
  }

  /** The first row of a sequence, if any. */
  function First(rows: seq<seq<string>>): (r: Option<seq<string>>)
    ensures r.None? <==> rows == []
    ensures r.Some? ==> r.value in rows && r.value == rows[0]
  {
    if rows == [] then None else Some(rows[0])
  }

  /** The column the lookup compares against the key. */
  function IdColumn(t: Table): nat
    requires "channelId" in t.columns
  {
    FirstIndex(t.columns, "channelId")
  }

  /** The column whose cell `asDict()["channelTitle"]` returns. */
  function TitleColumn(t: Table): nat
    requires "channelTitle" in t.columns
  {
    LastIndex(t.columns, "channelTitle")
  }

  /** `get_channel_title_by_id(channelId, mapIdTitle)`: check the schema,
      resolve the channelId column, then return the title of the first
      matching row, or "" when no row matches. */
  function GetChannelTitleById(channelId: string, mapIdTitle: Table): (r: Result<string, ChannelTitleError>)
    requires IsDataFrame(mapIdTitle)
    ensures r == Failure(AssertionError(ColumnsMessage)) <==> !HasExpectedColumns(mapIdTitle)
    ensures HasExpectedColumns(mapIdTitle) ==>
      (r.Failure? <==> multiset(mapIdTitle.columns)["channelId"] > 1)
    ensures HasExpectedColumns(mapIdTitle) && r.Failure? ==> r.error == AmbiguousReference("channelId")
    ensures r.Success? && r.value != "" ==>
      "channelId" in mapIdTitle.columns && "channelTitle" in mapIdTitle.columns &&
      exists i :: 0 <= i < |mapIdTitle.rows| &&
        mapIdTitle.rows[i][IdColumn(mapIdTitle)] == channelId &&
        mapIdTitle.rows[i][TitleColumn(mapIdTitle)] == r.value
  {
    if !HasExpectedColumns(mapIdTitle) then
      Failure(AssertionError(ColumnsMessage))
    else
      assert "channelId" in (set c | c in mapIdTitle.columns);
      assert "channelTitle" in (set c | c in mapIdTitle.columns);
      var idColumn :- ResolveColumn(mapIdTitle.columns, "channelId");
      match First(Filter(mapIdTitle.rows, idColumn, channelId))
      case Some(row) => Success(row[TitleColumn(mapIdTitle)])
      case None => Success("")
  }

  /** Row `i` is the first row whose cell in column `c` equals `id`. */
  ghost predicate IsFirstMatch(rows: seq<seq<string>>, c: nat, id: string, i: int) {
    && 0 <= i < |rows|
    && c < |rows[i]| && rows[i][c] == id
    && forall j :: 0 <= j < i ==> c < |rows[j]| && rows[j][c] != id
  }

  /** No row has `id` in column `c`. */
  ghost predicate NoMatch(rows: seq<seq<string>>, c: nat, id: string)
    requires forall i :: 0 <= i < |rows| ==> c < |rows[i]|
  {
    forall i :: 0 <= i < |rows| ==> rows[i][c] != id
  }

  /** Filtering keeps row order, so the head of the filtered rows is the first match. */
  lemma {:induction false} FilterHeadIsFirstMatch(rows: seq<seq<string>>, c: nat, id: string, i: int)
    requires forall k :: 0 <= k < |rows| ==> c < |rows[k]|
    requires IsFirstMatch(rows, c, id, i)
    ensures Filter(rows, c, id) != [] && Filter(rows, c, id)[0] == rows[i]
  {
    if i > 0 {
      assert rows[0][c] != id;
      forall j | 0 <= j < i - 1
        ensures c < |rows[1..][j]| && rows[1..][j][c] != id
      {
        assert rows[1..][j] == rows[j + 1];
      }
      FilterHeadIsFirstMatch(rows[1..], c, id, i - 1);
    }
  }

  /** The schema is accepted and the channelId column is unique. */
  ghost predicate AcceptedSchema(t: Table) {
    HasExpectedColumns(t) && multiset(t.columns)["channelId"] == 1 &&
    "channelId" in t.columns && "channelTitle" in t.columns
  }

  /** On an accepted schema the lookup is the head of the filtered rows: the
      lookup's body unfolded, kept as a proof step for SwappedColumnsSameTitle. */
  lemma AcceptedLookup(channelId: string, t: Table)
    requires IsDataFrame(t) && AcceptedSchema(t)
    ensures GetChannelTitleById(channelId, t) ==
      var filtered := Filter(t.rows, IdColumn(t), channelId);
      if filtered == [] then Success("") else Success(filtered[0][TitleColumn(t)])
  {
  }

  /** Some row matches: the result is the title cell of the first matching row. */
  lemma TitleOfFirstMatch(channelId: string, t: Table, i: int)
    requires IsDataFrame(t) && AcceptedSchema(t)
    requires IsFirstMatch(t.rows, IdColumn(t), channelId, i)
    ensures GetChannelTitleById(channelId, t) == Success(t.rows[i][TitleColumn(t)])
  {
    FilterHeadIsFirstMatch(t.rows, IdColumn(t), channelId, i);
  }

  /** No row matches: the result is the empty string. */
  lemma TitleWhenNoMatch(channelId: string, t: Table)
    requires IsDataFrame(t) && AcceptedSchema(t)
    requires NoMatch(t.rows, IdColumn(t), channelId)
    ensures GetChannelTitleById(channelId, t) == Success("")
  {
  }

  /** The schema check compares sets: two tables whose column lists have the
      same members, in any order, are accepted or refused alike. */
  lemma ColumnOrderIrrelevant(channelId: string, t1: Table, t2: Table)
    requires IsDataFrame(t1) && IsDataFrame(t2)
    requires forall c :: c in t1.columns <==> c in t2.columns
    ensures GetChannelTitleById(channelId, t1) == Failure(AssertionError(ColumnsMessage))
        <==> GetChannelTitleById(channelId, t2) == Failure(AssertionError(ColumnsMessage))
  {
    assert (set c | c in t1.columns) == (set c | c in t2.columns);
  }

  /** Each row with its two cells exchanged. */
  function SwapCells(rows: seq<seq<string>>): (r: seq<seq<string>>)
    requires forall i :: 0 <= i < |rows| ==> |rows[i]| == 2
    ensures |r| == |rows|
    ensures forall i :: 0 <= i < |rows| ==> r[i] == [rows[i][1], rows[i][0]]
  {
    if rows == [] then [] else [[rows[0][1], rows[0][0]]] + SwapCells(rows[1..])
  }

  /** Filtering the exchanged rows on their second cell exchanges the
      filtered rows. */
  lemma {:induction false} FilterSwapped(rows: seq<seq<string>>, id: string)
    requires forall i :: 0 <= i < |rows| ==> |rows[i]| == 2
    ensures forall i :: 0 <= i < |Filter(rows, 0, id)| ==> |Filter(rows, 0, id)[i]| == 2
    ensures Filter(SwapCells(rows), 1, id) == SwapCells(Filter(rows, 0, id))
  {
    var f := Filter(rows, 0, id);
    forall i | 0 <= i < |f| ensures |f[i]| == 2 {
      assert f[i] in f;
    }
    if rows != [] {
      FilterSwapped(rows[1..], id);
      assert SwapCells(rows)[1..] == SwapCells(rows[1..]);
    }
  }

  /** Listing the two columns the other way round, with every row's cells
      exchanged to match, gives the same title. */
  lemma SwappedColumnsSameTitle(channelId: string, rows: seq<seq<string>>)
    requires forall i :: 0 <= i < |rows| ==> |rows[i]| == 2
    ensures IsDataFrame(Table(["channelId", "channelTitle"], rows))
    ensures IsDataFrame(Table(["channelTitle", "channelId"], SwapCells(rows)))
    ensures GetChannelTitleById(channelId, Table(["channelId", "channelTitle"], rows))
         == GetChannelTitleById(channelId, Table(["channelTitle", "channelId"], SwapCells(rows)))
  {
    var t1 := Table(["channelId", "channelTitle"], rows);
    var t2 := Table(["channelTitle", "channelId"], SwapCells(rows));
    assert AcceptedSchema(t1) by {
      assert (set c | c in t1.columns) == {"channelId", "channelTitle"};
      assert multiset(t1.columns)["channelId"] == 1;
    }
    assert AcceptedSchema(t2) by {
      assert (set c | c in t2.columns) == {"channelId", "channelTitle"};
      assert multiset(t2.columns)["channelId"] == 1;
    }
    assert IdColumn(t1) == 0 && TitleColumn(t1) == 1;
    assert IdColumn(t2) == 1 && TitleColumn(t2) == 0;
    AcceptedLookup(channelId, t1);
    AcceptedLookup(channelId, t2);
    FilterSwapped(rows, channelId);
    var f := Filter(rows, 0, channelId);
    if f != [] {
      assert SwapCells(f)[0] == [f[0][1], f[0][0]];
    }
  }

  /** A failed schema check is decided before any row is looked at: the
      outcome is the same assertion failure whatever the rows are. */
  lemma SchemaCheckIgnoresRows(channelId: string, columns: seq<string>, rows1: seq<seq<string>>, rows2: seq<seq<string>>)
    requires IsDataFrame(Table(columns, rows1)) && IsDataFrame(Table(columns, rows2))
    requires !HasExpectedColumns(Table(columns, rows1))
    ensures GetChannelTitleById(channelId, Table(columns, rows1)) == Failure(AssertionError(ColumnsMessage))
    ensures GetChannelTitleById(channelId, Table(columns, rows2)) == Failure(AssertionError(ColumnsMessage))
  {
  }

  /** The rows of the test suite's table. */
  const ExampleRows: seq<seq<string>> := [["idch1", "titlech1"], ["idch2", "titlech2"], ["idch3", "titlech3"]]

  /** The test suite's table has an accepted schema, ids in its first
      column and titles in its second. */
  lemma ExampleTableAccepted()
    ensures IsDataFrame(Table(["channelId", "channelTitle"], ExampleRows))
    ensures AcceptedSchema(Table(["channelId", "channelTitle"], ExampleRows))
    ensures IdColumn(Table(["channelId", "channelTitle"], ExampleRows)) == 0
    ensures TitleColumn(Table(["channelId", "channelTitle"], ExampleRows)) == 1
  {
    var good := Table(["channelId", "channelTitle"], ExampleRows);
    assert (set c | c in good.columns) == {"channelId", "channelTitle"};
    assert multiset(good.columns)["channelId"] == 1;
  }

  /** The test suite's table looked up by each of its ids: idch1, idch2 and
      idch3 give titlech1, titlech2 and titlech3. */
  lemma ExampleLookupById(i: nat)
    requires i < |ExampleRows|
    ensures IsDataFrame(Table(["channelId", "channelTitle"], ExampleRows))
    ensures GetChannelTitleById(ExampleRows[i][0], Table(["channelId", "channelTitle"], ExampleRows))
         == Success(ExampleRows[i][1])
  {
    ExampleTableAccepted();
    assert IsFirstMatch(ExampleRows, 0, ExampleRows[i][0], i);
    TitleOfFirstMatch(ExampleRows[i][0], Table(["channelId", "channelTitle"], ExampleRows), i);
  }

  /** The test suite's table looked up by an id it does not hold gives "". */
  lemma ExampleUnknownId()
    ensures IsDataFrame(Table(["channelId", "channelTitle"], ExampleRows))
    ensures GetChannelTitleById("invalid_id", Table(["channelId", "channelTitle"], ExampleRows)) == Success("")
  {
    ExampleTableAccepted();
    TitleWhenNoMatch("invalid_id", Table(["channelId", "channelTitle"], ExampleRows));
  }

  /** The test suite's table with its columns renamed fails the schema assertion. */
  lemma ExampleRenamedColumns()
    ensures IsDataFrame(Table(["channel_id", "channel_title"], ExampleRows))
    ensures GetChannelTitleById("idch1", Table(["channel_id", "channel_title"], ExampleRows))
         == Failure(AssertionError(ColumnsMessage))
  {
    var bad := Table(["channel_id", "channel_title"], ExampleRows);
    assert IsDataFrame(bad);
    assert "channelId" !in (set c | c in bad.columns);
  }

  /** Repeated column names pass the set check. A repeated channelId makes
      the column reference ambiguous; a repeated channelTitle gives the cell
      of its last occurrence. */
  lemma ExampleRepeatedColumns()
    ensures IsDataFrame(Table(["channelId", "channelTitle", "channelId"], [["idch1", "titlech1", "idch1"]]))
    ensures IsDataFrame(Table(["channelId", "channelTitle", "channelTitle"], [["idch1", "first", "last"]]))
    ensures GetChannelTitleById("idch1", Table(["channelId", "channelTitle", "channelId"], [["idch1", "titlech1", "idch1"]]))
         == Failure(AmbiguousReference("channelId"))
    ensures GetChannelTitleById("idch1", Table(["channelId", "channelTitle", "channelTitle"], [["idch1", "first", "last"]]))
         == Success("last")
  {
    var t1 := Table(["channelId", "channelTitle", "channelId"], [["idch1", "titlech1", "idch1"]]);
    assert (set c | c in t1.columns) == {"channelId", "channelTitle"};
    assert multiset(t1.columns)["channelId"] == 2;
    var t2 := Table(["channelId", "channelTitle", "channelTitle"], [["idch1", "first", "last"]]);
    assert AcceptedSchema(t2) by {
      assert (set c | c in t2.columns) == {"channelId", "channelTitle"};
      assert multiset(t2.columns)["channelId"] == 1;
    }
    assert IdColumn(t2) == 0 && TitleColumn(t2) == 2;
    TitleOfFirstMatch("idch1", t2, 0);
  }
}
