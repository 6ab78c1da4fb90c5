/** The row loop of the CSV loader used by the visualisation code. Each row
    is a record from column name to its text. The loop walks the columns in
    the fixed order t, tau, x, y, z, E, T, IL, s_1, s_2, Fitness; at the first
    empty field it moves on to the next row, and before that it appends each
    field, converted, to the list of its column. A row with an empty field
    after the first one therefore still feeds the lists of the columns before
    it, and the eleven lists can fall out of step. */
module DataHandling {

  /** The columns in the order the loop inspects them. */
  const Columns: seq<string> := ["t", "tau", "x", "y", "z", "E", "T", "IL", "s_1", "s_2", "Fitness"]

  lemma ColumnNames()
    ensures Columns[0] == "t" && Columns[1] == "tau" && Columns[2] == "x" && Columns[3] == "y"
    ensures Columns[4] == "z" && Columns[5] == "E" && Columns[6] == "T" && Columns[7] == "IL"
    ensures Columns[8] == "s_1" && Columns[9] == "s_2" && Columns[10] == "Fitness"
  {
  }

  /** A row holds a field for every column. */
  predicate HasColumns(fields: map<string, string>) {
    forall k :: 0 <= k < |Columns| ==> Columns[k] in fields
  }

  /** A CSV row as a dictionary reader yields it for a file whose header
      names every column: column name to text. */
  type Row = fields: map<string, string> | HasColumns(fields)
    witness map["t" := "", "tau" := "", "x" := "", "y" := "", "z" := "", "E" := "", "T" := "",
                "IL" := "", "s_1" := "", "s_2" := "", "Fitness" := ""]

  /** A converted field. The number parsing itself is not modelled: a cell
      keeps its text and records which conversion the loader applies. */
  datatype Cell = Int(text: string) | Text(text: string) | Float(text: string)

  /** t is parsed as an integer, tau is kept as raw text, every other
      column is parsed as a float. */
  function Convert(k: nat, text: string): (c: Cell)
    requires k < |Columns|
    ensures c.text == text
    ensures c.Int? <==> k == 0
    ensures c.Text? <==> k == 1
    ensures c.Float? <==> 2 <= k
  {
    if k == 0 then Int(text) else if k == 1 then Text(text) else Float(text)
  }

  /** The number of leading columns, from column k on, whose fields are
      non-empty, plus k. */
  function FilledFrom(row: Row, k: nat): (n: nat)
    requires k <= |Columns|
    ensures k <= n <= |Columns|
    ensures forall j :: k <= j < n ==> row[Columns[j]] != ""
    ensures n < |Columns| ==> row[Columns[n]] == ""
    decreases |Columns| - k
  {
    if k == |Columns| then k
    else if row[Columns[k]] == "" then k
    else FilledFrom(row, k + 1)
  }

  /** The index of the row's first empty field, or 11 when there is none:
      the row feeds exactly the lists of the columns before it. */
  function Filled(row: Row): (n: nat)
    ensures n <= |Columns|
    ensures forall j :: 0 <= j < n ==> row[Columns[j]] != ""
    ensures n < |Columns| ==> row[Columns[n]] == ""
  {
    FilledFrom(row, 0)
  }

  /** What one row appends to the list of column k: its converted field
      when the row's first empty field comes after column k, else nothing. */
  function Contribution(row: Row, k: nat): (cells: seq<Cell>)
    requires k < |Columns|
  {
    if k < Filled(row) then [Convert(k, row[Columns[k]])] else []
  }

  /** The list of column k after the loop has read the given rows. */
  function Column(rows: seq<Row>, k: nat): (cells: seq<Cell>)
    requires k < |Columns|
  {
    if rows == [] then [] else Column(rows[..|rows| - 1], k) + Contribution(rows[|rows| - 1], k)
  }

  /** One more row extends every list by that row's contribution. */
  lemma ColumnStep(rows: seq<Row>, row: Row, k: nat)
    requires k < |Columns|
    ensures Column(rows + [row], k) == Column(rows, k) + Contribution(row, k)
  {
    assert (rows + [row])[..|rows|] == rows;
  }

  /** load_data's loop: reads the rows in order and returns the eleven
      lists, each exactly what Column describes. */
  method LoadData(rows: seq<Row>)
    returns (t: seq<Cell>, tau: seq<Cell>, x: seq<Cell>, y: seq<Cell>, z: seq<Cell>,
             E: seq<Cell>, T: seq<Cell>, IL: seq<Cell>, s_1: seq<Cell>, s_2: seq<Cell>,
             fitness: seq<Cell>)
    ensures t == Column(rows, 0) && tau == Column(rows, 1) && x == Column(rows, 2)
    ensures y == Column(rows, 3) && z == Column(rows, 4) && E == Column(rows, 5)
    ensures T == Column(rows, 6) && IL == Column(rows, 7) && s_1 == Column(rows, 8)
    ensures s_2 == Column(rows, 9) && fitness == Column(rows, 10)
  {
    t, tau, x, y, z, E, T, IL, s_1, s_2, fitness := [], [], [], [], [], [], [], [], [], [], [];
    for i := 0 to |rows|
      invariant t == Column(rows[..i], 0) && tau == Column(rows[..i], 1)
      invariant x == Column(rows[..i], 2) && y == Column(rows[..i], 3)
      invariant z == Column(rows[..i], 4) && E == Column(rows[..i], 5)
      invariant T == Column(rows[..i], 6) && IL == Column(rows[..i], 7)
      invariant s_1 == Column(rows[..i], 8) && s_2 == Column(rows[..i], 9)
      invariant fitness == Column(rows[..i], 10)
    {
      var row := rows[i];
      assert rows[..i + 1] == rows[..i] + [row];
      ghost var n := Filled(row);
      ColumnNames();
      ColumnStep(rows[..i], row, 0);
      ColumnStep(rows[..i], row, 1);
      ColumnStep(rows[..i], row, 2);
      ColumnStep(rows[..i], row, 3);
      ColumnStep(rows[..i], row, 4);
      ColumnStep(rows[..i], row, 5);
      ColumnStep(rows[..i], row, 6);
      ColumnStep(rows[..i], row, 7);
      ColumnStep(rows[..i], row, 8);
      ColumnStep(rows[..i], row, 9);
      ColumnStep(rows[..i], row, 10);
      if row["t"] == "" {
        assert n == 0;
        continue;
      }
      t := t + [Convert(0, row["t"])];
      if row["tau"] == "" {
        assert n == 1;
        continue;
      }
      tau := tau + [Convert(1, row["tau"])];
      if row["x"] == "" {
        assert n == 2;
        continue;
      }
      x := x + [Convert(2, row["x"])];
      if row["y"] == "" {
        assert n == 3;
        continue;
      }
      y := y + [Convert(3, row["y"])];
      if row["z"] == "" {
        assert n == 4;
        continue;
      }
      z := z + [Convert(4, row["z"])];
      if row["E"] == "" {
        assert n == 5;
        continue;
      }
      E := E + [Convert(5, row["E"])];
      if row["T"] == "" {
        assert n == 6;
        continue;
      }
      T := T + [Convert(6, row["T"])];
      if row["IL"] == "" {
        assert n == 7;
        continue;
      }
      IL := IL + [Convert(7, row["IL"])];
      if row["s_1"] == "" {
        assert n == 8;
        continue;
      }
      s_1 := s_1 + [Convert(8, row["s_1"])];
      if row["s_2"] == "" {
        assert n == 9;
        continue;
      }
      s_2 := s_2 + [Convert(9, row["s_2"])];
      if row["Fitness"] == "" {
        assert n == 10;
        continue;
      }
      assert n == 11;
      fitness := fitness + [Convert(10, row["Fitness"])];
    }
    assert rows[..|rows|] == rows;
  }

  /** A row whose t field is empty contributes to none of the lists. */
  lemma EmptyTimeContributesNothing(rows: seq<Row>, row: Row, k: nat)
    requires k < |Columns|
    requires row[Columns[0]] == ""
    ensures Column(rows + [row], k) == Column(rows, k)
  {
    ColumnStep(rows, row, k);
    assert Filled(row) == 0;
  }

  /** A row with every field non-empty appends exactly its own converted
      field to each of the eleven lists. */
  lemma CompleteRowAppendsToAll(rows: seq<Row>, row: Row, k: nat)
    requires k < |Columns|
    requires forall j :: 0 <= j < |Columns| ==> row[Columns[j]] != ""
    ensures Column(rows + [row], k) == Column(rows, k) + [Convert(k, row[Columns[k]])]
  {
    ColumnStep(rows, row, k);
  }

  /** A row whose first empty field is column f (0-based) appends to the
      lists of columns 0..f-1 and to no other. */
  lemma FirstEmptyFieldCutsRow(rows: seq<Row>, row: Row, f: nat, k: nat)
    requires f < |Columns| && k < |Columns|
    requires row[Columns[f]] == ""
    requires forall j :: 0 <= j < f ==> row[Columns[j]] != ""
    ensures k < f ==> Column(rows + [row], k) == Column(rows, k) + [Convert(k, row[Columns[k]])]
    ensures f <= k ==> Column(rows + [row], k) == Column(rows, k)
  {
    ColumnStep(rows, row, k);
    assert Filled(row) == f;
  }

  /** Reading a + b gives the lists of a followed by those of b: values are
      appended in row order. */
  lemma {:induction false} ColumnConcat(a: seq<Row>, b: seq<Row>, k: nat)
    requires k < |Columns|
    ensures Column(a + b, k) == Column(a, k) + Column(b, k)
    decreases |b|
  {
    if b == [] {
      assert a + b == a;
    } else {
      var init, last := b[..|b| - 1], b[|b| - 1];
      assert b == init + [last];
      assert a + b == (a + init) + [last];
      ColumnConcat(a, init, k);
      ColumnStep(a + init, last, k);
      ColumnStep(init, last, k);
      AppendAssociative(Column(a, k), Column(init, k), Contribution(last, k));
    }
  }

  lemma AppendAssociative(X: seq<Cell>, Y: seq<Cell>, Z: seq<Cell>)
    ensures (X + Y) + Z == X + (Y + Z)
  {
  }

  /** Column k+1 is never longer than column k, so the lengths are
      non-increasing in column order. */
  lemma {:induction false} ColumnsNonIncreasing(rows: seq<Row>, k: nat)
    requires k + 1 < |Columns|
    ensures |Column(rows, k + 1)| <= |Column(rows, k)|
    decreases |rows|
  {
    if rows != [] {
      var init := rows[..|rows| - 1];
      ColumnsNonIncreasing(init, k);
    }
  }

  /** The t list holds at most one value per row read. */
  lemma {:induction false} TimeListBoundedByRows(rows: seq<Row>)
    ensures |Column(rows, 0)| <= |rows|
    decreases |rows|
  {
    if rows != [] {
      var init := rows[..|rows| - 1];
      TimeListBoundedByRows(init);
    }
  }

  /** The lists load_data returns, fitness first, are ordered by length:
      each is at most as long as the one before it, and t holds at most one
      value per row. */
  lemma ColumnLengthsOrdered(rows: seq<Row>)
    ensures |Column(rows, 10)| <= |Column(rows, 9)| <= |Column(rows, 8)| <= |Column(rows, 7)|
    ensures |Column(rows, 7)| <= |Column(rows, 6)| <= |Column(rows, 5)| <= |Column(rows, 4)|
    ensures |Column(rows, 4)| <= |Column(rows, 3)| <= |Column(rows, 2)| <= |Column(rows, 1)|
    ensures |Column(rows, 1)| <= |Column(rows, 0)| <= |rows|
  {
    TimeListBoundedByRows(rows);
    ColumnsNonIncreasing(rows, 0);
    ColumnsNonIncreasing(rows, 1);
    ColumnsNonIncreasing(rows, 2);
    ColumnsNonIncreasing(rows, 3);
    ColumnsNonIncreasing(rows, 4);
    ColumnsNonIncreasing(rows, 5);
    ColumnsNonIncreasing(rows, 6);
    ColumnsNonIncreasing(rows, 7);
    ColumnsNonIncreasing(rows, 8);
    ColumnsNonIncreasing(rows, 9);
  }

  /** Every tau value is kept as text; every t value is parsed as an
      integer and every other column as a float. */
  lemma {:induction false} ColumnConversions(rows: seq<Row>, k: nat)
    requires k < |Columns|
    ensures forall c :: c in Column(rows, k) ==> c == Convert(k, c.text)
    decreases |rows|
  {
    if rows != [] {
      var init := rows[..|rows| - 1];
      ColumnConversions(init, k);
    }
  }

  /** Three rows, the first and last complete and the middle one with t and
      tau but no x: t gets three values and x two, so the second x value,
      which comes from the third row, sits beside the second t value, which
      comes from the second row. */
  lemma PartialRowMisalignsColumns(r0: Row, r1: Row, r2: Row)
    requires forall j :: 0 <= j < |Columns| ==> r0[Columns[j]] != "" && r2[Columns[j]] != ""
    requires r1[Columns[0]] != "" && r1[Columns[1]] != "" && r1[Columns[2]] == ""
    ensures Column([r0, r1, r2], 0) == [Convert(0, r0[Columns[0]]), Convert(0, r1[Columns[0]]), Convert(0, r2[Columns[0]])]
    ensures Column([r0, r1, r2], 2) == [Convert(2, r0[Columns[2]]), Convert(2, r2[Columns[2]])]
  {
    assert Filled(r0) == |Columns| && Filled(r1) == 2 && Filled(r2) == |Columns|;
    ColumnStep([], r0, 0);
    ColumnStep([], r0, 2);
    assert [] + [r0] == [r0];
    ColumnStep([r0], r1, 0);
    ColumnStep([r0], r1, 2);
    assert [r0] + [r1] == [r0, r1];
    ColumnStep([r0, r1], r2, 0);
    ColumnStep([r0, r1], r2, 2);
    assert [r0, r1] + [r2] == [r0, r1, r2];
  }

  /** The rows with every field non-empty, in order. CompleteRowsMembers,
      CompleteRowsOfComplete and CompleteRowsConcat state that it keeps
      exactly the complete rows, all of them when every row is complete,
      in row order. */
  function CompleteRows(rows: seq<Row>): (c: seq<Row>)
    ensures |c| <= |rows|
    ensures forall i :: 0 <= i < |c| ==> Filled(c[i]) == |Columns|
  {
    if rows == [] then []
    else
      var last := rows[|rows| - 1];
      CompleteRows(rows[..|rows| - 1]) + Kept(last)
  }

  /** A row is kept exactly when it is one of the rows and complete. */
  lemma {:induction false} CompleteRowsMembers(rows: seq<Row>, r: Row)
    ensures r in CompleteRows(rows) <==> r in rows && Filled(r) == |Columns|
    decreases |rows|
  {
    if rows != [] {
      var init, last := rows[..|rows| - 1], rows[|rows| - 1];
      assert rows == init + [last];
      CompleteRowsMembers(init, r);
    }
  }

  /** When every row is complete, every row is kept. */
  lemma {:induction false} CompleteRowsOfComplete(rows: seq<Row>)
    requires forall i :: 0 <= i < |rows| ==> Filled(rows[i]) == |Columns|
    ensures CompleteRows(rows) == rows
    decreases |rows|
  {
    if rows != [] {
      var init := rows[..|rows| - 1];
      CompleteRowsOfComplete(init);
      assert init + [rows[|rows| - 1]] == rows;
    }
  }

  /** What one row adds to the complete rows. */
  function Kept(row: Row): (c: seq<Row>)
    ensures c == [row] || c == []
  {
    if Filled(row) == |Columns| then [row] else []
  }

  lemma CompleteRowsSnoc(rows: seq<Row>, row: Row)
    ensures CompleteRows(rows + [row]) == CompleteRows(rows) + Kept(row)
  {
    assert (rows + [row])[..|rows|] == rows;
  }

  /** Filtering keeps row order: the complete rows of a + b are those of a
      followed by those of b. */
  lemma {:induction false} CompleteRowsConcat(a: seq<Row>, b: seq<Row>)
    ensures CompleteRows(a + b) == CompleteRows(a) + CompleteRows(b)
    decreases |b|
  {
    if b == [] {
      assert a + b == a;
    } else {
      var init, last := b[..|b| - 1], b[|b| - 1];
      assert b == init + [last];
      assert a + b == (a + init) + [last];
      CompleteRowsConcat(a, init);
      CompleteRowsSnoc(a + init, last);
      CompleteRowsSnoc(init, last);
      RowsAppendAssociative(CompleteRows(a), CompleteRows(init), Kept(last));
    }
  }

  lemma RowsAppendAssociative(X: seq<Row>, Y: seq<Row>, Z: seq<Row>)
    ensures (X + Y) + Z == X + (Y + Z)
  {
  }

  /** Reading one more row extends the complete rows by that row exactly
      when it is complete. */
  lemma CompleteRowsStep(rows: seq<Row>, i: nat)
    requires i < |rows|
    ensures CompleteRows(rows[..i + 1])
         == CompleteRows(rows[..i]) + Kept(rows[i])
  {
    assert rows[..i + 1][..i] == rows[..i];
  }

  /** On complete rows the lists stay aligned: each has one entry per row,
      and entry i of every list comes from row i. */
  lemma {:induction false} CompleteRowsAligned(rows: seq<Row>, k: nat)
    requires k < |Columns|
    requires forall i :: 0 <= i < |rows| ==> Filled(rows[i]) == |Columns|
    ensures |Column(rows, k)| == |rows|
    ensures forall i :: 0 <= i < |rows| ==> Column(rows, k)[i] == Convert(k, rows[i][Columns[k]])
    decreases |rows|
  {
    if rows != [] {
      var init, last := rows[..|rows| - 1], rows[|rows| - 1];
      CompleteRowsAligned(init, k);
      assert init + [last] == rows;
      ColumnStep(init, last, k);
      var cell := Convert(k, last[Columns[k]]);
      assert Contribution(last, k) == [cell];
      forall i | 0 <= i < |rows|
        ensures Column(rows, k)[i] == Convert(k, rows[i][Columns[k]])
      {
        if i < |init| {
          assert Column(rows, k)[i] == Column(init, k)[i];
          assert rows[i] == init[i];
        }
      }
    }
  }

  /** The loader as evidently intended: a row with any empty field is
      skipped entirely, so all eleven lists have one entry per complete row
      and stay aligned. */
  method LoadCompleteRows(rows: seq<Row>)
    returns (t: seq<Cell>, tau: seq<Cell>, x: seq<Cell>, y: seq<Cell>, z: seq<Cell>,
             E: seq<Cell>, T: seq<Cell>, IL: seq<Cell>, s_1: seq<Cell>, s_2: seq<Cell>,
             fitness: seq<Cell>)
    ensures t == Column(CompleteRows(rows), 0) && tau == Column(CompleteRows(rows), 1)
    ensures x == Column(CompleteRows(rows), 2) && y == Column(CompleteRows(rows), 3)
    ensures z == Column(CompleteRows(rows), 4) && E == Column(CompleteRows(rows), 5)
    ensures T == Column(CompleteRows(rows), 6) && IL == Column(CompleteRows(rows), 7)
    ensures s_1 == Column(CompleteRows(rows), 8) && s_2 == Column(CompleteRows(rows), 9)
    ensures fitness == Column(CompleteRows(rows), 10)
    ensures |t| == |tau| == |x| == |y| == |z| == |E| == |T| == |IL| == |s_1| == |s_2| == |fitness|
  {
    t, tau, x, y, z, E, T, IL, s_1, s_2, fitness := [], [], [], [], [], [], [], [], [], [], [];
    ghost var done: seq<Row> := [];
    for i := 0 to |rows|
      invariant done == CompleteRows(rows[..i])
      invariant t == Column(done, 0) && tau == Column(done, 1) && x == Column(done, 2)
      invariant y == Column(done, 3) && z == Column(done, 4) && E == Column(done, 5)
      invariant T == Column(done, 6) && IL == Column(done, 7) && s_1 == Column(done, 8)
      invariant s_2 == Column(done, 9) && fitness == Column(done, 10)
    {
      var row := rows[i];
      CompleteRowsStep(rows, i);
      if Filled(row) < |Columns| {
        assert done + [] == done;
        continue;
      }
      ColumnNames();
      ColumnStep(done, row, 0);
      ColumnStep(done, row, 1);
      ColumnStep(done, row, 2);
      ColumnStep(done, row, 3);
      ColumnStep(done, row, 4);
      ColumnStep(done, row, 5);
      ColumnStep(done, row, 6);
      ColumnStep(done, row, 7);
      ColumnStep(done, row, 8);
      ColumnStep(done, row, 9);
      ColumnStep(done, row, 10);
      t := t + [Convert(0, row["t"])];
      tau := tau + [Convert(1, row["tau"])];
      x := x + [Convert(2, row["x"])];
      y := y + [Convert(3, row["y"])];
      z := z + [Convert(4, row["z"])];
      E := E + [Convert(5, row["E"])];
      T := T + [Convert(6, row["T"])];
      IL := IL + [Convert(7, row["IL"])];
      s_1 := s_1 + [Convert(8, row["s_1"])];
      s_2 := s_2 + [Convert(9, row["s_2"])];
      fitness := fitness + [Convert(10, row["Fitness"])];
      done := done + [row];
    }
    assert rows[..|rows|] == rows;
    CompleteColumnsAligned(done);
  }

  /** CompleteRowsAligned for all eleven columns: every list has one entry
      per row. */
  lemma CompleteColumnsAligned(rows: seq<Row>)
    requires forall i :: 0 <= i < |rows| ==> Filled(rows[i]) == |Columns|
    ensures forall k :: 0 <= k < |Columns| ==> |Column(rows, k)| == |rows|
  {
    forall k | 0 <= k < |Columns|
      ensures |Column(rows, k)| == |rows|
    {
      CompleteRowsAligned(rows, k);
    }
  }
}
