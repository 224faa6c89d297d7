/** ExcelWBWriter: at the end of each list the records of every table go to the worksheet of that
    name. A missing worksheet is created with a header row and the records below it; in an
    indexed worksheet each record overwrites the row its key tuple is indexed at, or goes into a
    new row after the last one, with the formulas of the row above filled down into it. Stats
    counts the new rows and the overwritten ones per table. */
module ExcelBook {
  import opened Wrappers
  import opened Values
  import opened Dicts
  import opened Compiler
  import opened Accumulator
  import opened Excel

  // ---------------------------------------------------------------------------------------------
  // Writing the cells of one row

  /** The first n pairs of `zip(vals, cols)`, each value written into row r at its column. */
  function WriteRow(g: Grid, r: int, vals: seq<Value>, cols: seq<int>, n: nat): (h: Grid)
    requires n <= |vals| && n <= |cols|
    ensures h.maxRow == if n == 0 then g.maxRow else Max(g.maxRow, r)
    decreases n
  {
    if n == 0 then g else SetCell(WriteRow(g, r, vals, cols, n - 1), r, cols[n - 1], vals[n - 1])
  }

  /** Writing a row leaves every other row, and the columns it does not write, as they were. */
  lemma {:induction false} WriteRowFrame(g: Grid, r: int, vals: seq<Value>, cols: seq<int>, n: nat)
    requires n <= |vals| && n <= |cols|
    ensures forall r', c' :: r' != r ==> CellAt(WriteRow(g, r, vals, cols, n), r', c') == CellAt(g, r', c')
    ensures forall c' :: c' !in cols[..n] ==> CellAt(WriteRow(g, r, vals, cols, n), r, c') == CellAt(g, r, c')
    decreases n
  {
    if n > 0 {
      WriteRowFrame(g, r, vals, cols, n - 1);
      assert cols[..n] == cols[..n - 1] + [cols[n - 1]];
    }
  }

  /** With the columns distinct, each value ends up in its own column. */
  lemma {:induction false} WriteRowCells(g: Grid, r: int, vals: seq<Value>, cols: seq<int>, n: nat)
    requires n <= |vals| && n <= |cols| && NoDup(cols)
    ensures forall j :: 0 <= j < n ==> CellAt(WriteRow(g, r, vals, cols, n), r, cols[j]) == vals[j]
    decreases n
  {
    if n > 0 {
      WriteRowCells(g, r, vals, cols, n - 1);
    }
  }

  /** The cell written below a formula: the fill-down of the formula text. On any other value
      `re.sub` raises TypeError; that branch is never reached, because a ready sheet keeps text in
      the last row's formula columns (ReadyOk, RouteKeepsFormulaText). */
  function FillCell(v: Value): (r: Value)
    ensures v.Str? <==> r.Str?
    ensures !v.Str? ==> r == v
  {
    if v.Str? then Str(FillDown(v.s)) else v
  }

  /** The first n formula columns of row r filled down from row r - 1. */
  function FillRow(g: Grid, r: int, fcols: seq<int>, n: nat): (h: Grid)
    requires n <= |fcols|
    ensures h.maxRow == if n == 0 then g.maxRow else Max(g.maxRow, r)
    decreases n
  {
    if n == 0 then g
    else
      var p := FillRow(g, r, fcols, n - 1);
      SetCell(p, r, fcols[n - 1], FillCell(CellAt(p, r - 1, fcols[n - 1])))
  }

  /** Filling down writes only row r at the formula columns, each from the cell above it. */
  lemma {:induction false} FillRowFrame(g: Grid, r: int, fcols: seq<int>, n: nat)
    requires n <= |fcols|
    ensures forall r', c' :: r' != r ==> CellAt(FillRow(g, r, fcols, n), r', c') == CellAt(g, r', c')
    ensures forall c' :: c' !in fcols[..n] ==> CellAt(FillRow(g, r, fcols, n), r, c') == CellAt(g, r, c')
    ensures forall c' <- fcols[..n] :: CellAt(FillRow(g, r, fcols, n), r, c') == FillCell(CellAt(g, r - 1, c'))
    decreases n
  {
    if n > 0 {
      FillRowFrame(g, r, fcols, n - 1);
      assert fcols[..n] == fcols[..n - 1] + [fcols[n - 1]];
    }
  }

  // ---------------------------------------------------------------------------------------------
  // Routing the records of a table into an indexed worksheet

  /** What routing reads from the worksheet: max_row when the list ended (origmaxrow), the key
      index, the mapped columns and the formula columns. */
  datatype Plan = Plan(origMax: int, index: map<seq<Value>, int>, colnbrs: seq<int>, formulaCols: seq<int>)

  function PlanOf(s: SheetState): Plan
  {
    Plan(s.grid.maxRow, s.pkIndex, s.colnbrs, s.formulaCols)
  }

  /** The cells so far and the two counts, Stats[table][0] (new rows) and [1] (rows overwritten). */
  datatype Tally = Tally(grid: Grid, ins: nat, upd: nat)

  /** destrow: the row the key is indexed at, or the row after the current last one. */
  function DestRow(p: Plan, g: Grid, key: seq<Value>): int
  {
    if key in p.index then p.index[key] else g.maxRow + 1
  }

  /** A record whose row lies past origmaxrow is a new row. */
  predicate Inserted(p: Plan, g: Grid, key: seq<Value>)
  {
    DestRow(p, g, key) > p.origMax
  }

  /** One record: its values into its row at the mapped columns, then, in a new row, the formulas
      of the row above filled down. */
  function RouteGrid(p: Plan, g: Grid, rec: Record, key: seq<Value>): Grid
  {
    var dest := DestRow(p, g, key);
    var g1 := WriteRow(g, dest, rec, p.colnbrs, Min(|rec|, |p.colnbrs|));
    if dest > p.origMax then FillRow(g1, dest, p.formulaCols, |p.formulaCols|) else g1
  }

  /** The first n pairs of `zip(records, keys)`, each counted as inserted or updated. */
  function RouteAll(p: Plan, g: Grid, recs: seq<Record>, keys: seq<seq<Value>>, n: nat): Tally
    requires n <= |recs| && n <= |keys|
    decreases n
  {
    if n == 0 then Tally(g, 0, 0)
    else
      var t := RouteAll(p, g, recs, keys, n - 1);
      var ins := Inserted(p, t.grid, keys[n - 1]);
      Tally(RouteGrid(p, t.grid, recs[n - 1], keys[n - 1]), t.ins + (if ins then 1 else 0), t.upd + (if ins then 0 else 1))
  }

  /** How many of the first n keys the index does not hold. */
  function Unmatched(index: map<seq<Value>, int>, keys: seq<seq<Value>>, n: nat): (r: nat)
    requires n <= |keys|
    ensures r <= n
    decreases n
  {
    if n == 0 then 0 else Unmatched(index, keys, n - 1) + if keys[n - 1] in index then 0 else 1
  }

  /** No key is unmatched exactly when the index holds every one. */
  lemma {:induction false} UnmatchedZero(index: map<seq<Value>, int>, keys: seq<seq<Value>>, n: nat)
    requires n <= |keys|
    ensures Unmatched(index, keys, n) == 0 <==> forall i :: 0 <= i < n ==> keys[i] in index
    decreases n
  {
    if n > 0 {
      UnmatchedZero(index, keys, n - 1);
    }
  }

  lemma {:induction false} UnmatchedGrows(index: map<seq<Value>, int>, keys: seq<seq<Value>>, a: nat, b: nat)
    requires a < b <= |keys| && keys[a] !in index
    ensures Unmatched(index, keys, b) >= Unmatched(index, keys, a) + 1
    decreases b
  {
    if b > a + 1 {
      UnmatchedGrows(index, keys, a, b - 1);
    }
  }

  /** The index points at rows that exist when the list ends. */
  ghost predicate IndexWithin(p: Plan)
  {
    forall k <- p.index.Keys :: p.index[k] <= p.origMax
  }

  /** One record, once the last row is at or past origmaxrow: a new row exactly when its key is
      not indexed; max_row grows by one for a new row and stays for an overwritten one when the
      record writes a cell, and never shrinks. */
  lemma {:induction false} RouteStep(p: Plan, g: Grid, rec: Record, key: seq<Value>)
    requires IndexWithin(p) && p.origMax <= g.maxRow
    ensures Inserted(p, g, key) <==> key !in p.index
    ensures RouteGrid(p, g, rec, key).maxRow >= g.maxRow
    ensures Min(|rec|, |p.colnbrs|) > 0 ==>
      RouteGrid(p, g, rec, key).maxRow == if key in p.index then g.maxRow else g.maxRow + 1
  {
  }

  /** Each record adds one to exactly one count: a key the index holds is an update, any other
      key an insert; and max_row never shrinks. */
  lemma {:induction false} RouteCounts(p: Plan, g: Grid, recs: seq<Record>, keys: seq<seq<Value>>, n: nat)
    requires n <= |recs| && n <= |keys| && IndexWithin(p) && p.origMax <= g.maxRow
    ensures RouteAll(p, g, recs, keys, n).ins == Unmatched(p.index, keys, n)
    ensures RouteAll(p, g, recs, keys, n).upd == n - Unmatched(p.index, keys, n)
    ensures RouteAll(p, g, recs, keys, n).grid.maxRow >= g.maxRow
    decreases n
  {
    if n > 0 {
      RouteCounts(p, g, recs, keys, n - 1);
      RouteStep(p, RouteAll(p, g, recs, keys, n - 1).grid, recs[n - 1], keys[n - 1]);
    }
  }

  /** Writing a batch whose keys are all indexed inserts nothing and updates every record: a
      batch written a second time into a worksheet indexed after the first only updates. */
  lemma {:induction false} ReplayUpdates(p: Plan, g: Grid, recs: seq<Record>, keys: seq<seq<Value>>)
    requires |recs| == |keys| && IndexWithin(p) && p.origMax <= g.maxRow
    requires forall k <- keys :: k in p.index
    ensures RouteAll(p, g, recs, keys, |keys|).ins == 0
    ensures RouteAll(p, g, recs, keys, |keys|).upd == |keys|
  {
    RouteCounts(p, g, recs, keys, |keys|);
    UnmatchedZero(p.index, keys, |keys|);
  }

  /** Every record writes at least one mapped cell. */
  ghost predicate Nonempty(p: Plan, recs: seq<Record>, n: nat)
    requires n <= |recs|
  {
    forall i :: 0 <= i < n ==> Min(|recs[i]|, |p.colnbrs|) > 0
  }

  /** The row the i-th record goes to: its indexed row, or the next new row after the inserts
      before it. */
  function Dest(p: Plan, keys: seq<seq<Value>>, i: nat): int
    requires i < |keys|
  {
    if keys[i] in p.index then p.index[keys[i]] else p.origMax + 1 + Unmatched(p.index, keys, i)
  }

  /** New rows follow one another: max_row grows by one per insert, and each record goes to the
      row Dest names. */
  lemma {:induction false} RouteMaxRow(p: Plan, g: Grid, recs: seq<Record>, keys: seq<seq<Value>>, n: nat)
    requires n <= |recs| && n <= |keys| && IndexWithin(p) && p.origMax == g.maxRow && Nonempty(p, recs, n)
    ensures RouteAll(p, g, recs, keys, n).grid.maxRow == g.maxRow + Unmatched(p.index, keys, n)
    ensures n < |keys| ==> DestRow(p, RouteAll(p, g, recs, keys, n).grid, keys[n]) == Dest(p, keys, n)
    decreases n
  {
    if n > 0 {
      RouteMaxRow(p, g, recs, keys, n - 1);
      RouteStep(p, RouteAll(p, g, recs, keys, n - 1).grid, recs[n - 1], keys[n - 1]);
    }
  }

  /** The well-formed attributes of an indexed worksheet: the index maps distinct keys to distinct
      rows that exist, the mapped columns are distinct, and no formula column is a mapped one. */
  ghost predicate Routable(p: Plan, g: Grid)
  {
    && p.origMax == g.maxRow && IndexWithin(p) && Injective(p.index)
    && NoDup(p.colnbrs) && (forall c <- p.formulaCols :: c !in p.colnbrs)
  }

  /** Distinct keys go to distinct rows. */
  lemma {:induction false} DestDistinct(p: Plan, g: Grid, keys: seq<seq<Value>>, a: nat, b: nat)
    requires Routable(p, g) && NoDup(keys) && a < b < |keys|
    ensures Dest(p, keys, a) != Dest(p, keys, b)
  {
    if keys[a] !in p.index && keys[b] !in p.index {
      UnmatchedGrows(p.index, keys, a, b);
    }
  }

  /** One record lands in its row under the mapped columns, and no other row changes. */
  lemma {:induction false} RouteGridCells(p: Plan, g: Grid, rec: Record, key: seq<Value>)
    requires NoDup(p.colnbrs) && forall c <- p.formulaCols :: c !in p.colnbrs
    ensures forall j :: 0 <= j < Min(|rec|, |p.colnbrs|) ==>
      CellAt(RouteGrid(p, g, rec, key), DestRow(p, g, key), p.colnbrs[j]) == rec[j]
    ensures forall r, c :: r != DestRow(p, g, key) ==> CellAt(RouteGrid(p, g, rec, key), r, c) == CellAt(g, r, c)
  {
    var dest := DestRow(p, g, key);
    var w := Min(|rec|, |p.colnbrs|);
    var g1 := WriteRow(g, dest, rec, p.colnbrs, w);
    WriteRowCells(g, dest, rec, p.colnbrs, w);
    WriteRowFrame(g, dest, rec, p.colnbrs, w);
    FillRowFrame(g1, dest, p.formulaCols, |p.formulaCols|);
    assert p.formulaCols[..|p.formulaCols|] == p.formulaCols;
  }

  /** One record leaves every row but its own as it was. */
  lemma {:induction false} RouteGridOther(p: Plan, g: Grid, rec: Record, key: seq<Value>, r: int, c: int)
    requires NoDup(p.colnbrs) && (forall c <- p.formulaCols :: c !in p.colnbrs) && r != DestRow(p, g, key)
    ensures CellAt(RouteGrid(p, g, rec, key), r, c) == CellAt(g, r, c)
  {
    RouteGridCells(p, g, rec, key);
  }

  /** After routing, record i sits in its destination row under mapped column j: no later
      record of the batch writes into a row an earlier one went to. */
  lemma {:induction false} RouteCellAt(p: Plan, g: Grid, recs: seq<Record>, keys: seq<seq<Value>>, n: nat, i: nat, j: nat)
    requires n <= |recs| && n <= |keys| && Routable(p, g) && NoDup(keys) && Nonempty(p, recs, n)
    requires i < n && j < Min(|recs[i]|, |p.colnbrs|)
    ensures CellAt(RouteAll(p, g, recs, keys, n).grid, Dest(p, keys, i), p.colnbrs[j]) == recs[i][j]
    decreases n
  {
    var m := n - 1;
    var t := RouteAll(p, g, recs, keys, m).grid;
    assert RouteAll(p, g, recs, keys, n).grid == RouteGrid(p, t, recs[m], keys[m]);
    RouteMaxRow(p, g, recs, keys, m);
    if i < m {
      RouteCellAt(p, g, recs, keys, m, i, j);
      DestDistinct(p, g, keys, i, m);
      RouteGridOther(p, t, recs[m], keys[m], Dest(p, keys, i), p.colnbrs[j]);
    } else {
      RouteGridCells(p, t, recs[m], keys[m]);
    }
  }

  /** After routing, every record of the batch sits in its destination row under the mapped
      columns. */
  lemma RouteCells(p: Plan, g: Grid, recs: seq<Record>, keys: seq<seq<Value>>, n: nat)
    requires n <= |recs| && n <= |keys| && Routable(p, g) && NoDup(keys) && Nonempty(p, recs, n)
    ensures forall i, j :: 0 <= i < n && 0 <= j < Min(|recs[i]|, |p.colnbrs|) ==>
      CellAt(RouteAll(p, g, recs, keys, n).grid, Dest(p, keys, i), p.colnbrs[j]) == recs[i][j]
  {
    forall i, j | 0 <= i < n && 0 <= j < Min(|recs[i]|, |p.colnbrs|)
      ensures CellAt(RouteAll(p, g, recs, keys, n).grid, Dest(p, keys, i), p.colnbrs[j]) == recs[i][j]
    {
      RouteCellAt(p, g, recs, keys, n, i, j);
    }
  }

  /** The formula cells of the last row hold text, so the fill-down always has a formula to copy. */
  ghost predicate FormulaRowText(fcols: seq<int>, g: Grid)
  {
    forall c <- fcols :: CellAt(g, g.maxRow, c).Str?
  }

  /** One record keeps the formula cells of the last row text: a new row gets every formula filled
      down from the row above, and an overwritten row is written only under mapped columns. */
  lemma {:induction false} RouteGridFormulaText(p: Plan, g: Grid, rec: Record, key: seq<Value>)
    requires IndexWithin(p) && p.origMax <= g.maxRow && (forall c <- p.formulaCols :: c !in p.colnbrs)
    requires FormulaRowText(p.formulaCols, g)
    ensures FormulaRowText(p.formulaCols, RouteGrid(p, g, rec, key))
  {
    var dest := DestRow(p, g, key);
    var w := Min(|rec|, |p.colnbrs|);
    var g1 := WriteRow(g, dest, rec, p.colnbrs, w);
    WriteRowFrame(g, dest, rec, p.colnbrs, w);
    FillRowFrame(g1, dest, p.formulaCols, |p.formulaCols|);
    assert p.formulaCols[..|p.formulaCols|] == p.formulaCols;
    var h := RouteGrid(p, g, rec, key);
    forall c <- p.formulaCols ensures CellAt(h, h.maxRow, c).Str? {
      assert c !in p.colnbrs[..w];
    }
  }

  /** Routing keeps the formula cells of the last row text. */
  lemma {:induction false} RouteKeepsFormulaText(p: Plan, g: Grid, recs: seq<Record>, keys: seq<seq<Value>>, n: nat)
    requires n <= |recs| && n <= |keys| && Routable(p, g) && FormulaRowText(p.formulaCols, g)
    ensures FormulaRowText(p.formulaCols, RouteAll(p, g, recs, keys, n).grid)
    decreases n
  {
    if n > 0 {
      RouteKeepsFormulaText(p, g, recs, keys, n - 1);
      RouteCounts(p, g, recs, keys, n - 1);
      RouteGridFormulaText(p, RouteAll(p, g, recs, keys, n - 1).grid, recs[n - 1], keys[n - 1]);
    }
  }

  // ---------------------------------------------------------------------------------------------
  // A new worksheet

  /** The header row: the mapped column names. */
  function HeaderRow(cols: seq<string>): (r: Record)
    ensures |r| == |cols| && forall j :: 0 <= j < |cols| ==> r[j] == Str(cols[j])
  {
    seq(|cols|, j requires 0 <= j < |cols| => Str(cols[j]))
  }

  /** ws.append of each row, the first at row `first`: values from column 1 on. */
  function AppendRows(g: Grid, first: int, rows: seq<Record>): Grid
    decreases |rows|
  {
    if rows == [] then g
    else
      var n := |rows| - 1;
      WriteRow(AppendRows(g, first, rows[..n]), first + n, rows[n], Range(|rows[n]|), |rows[n]|)
  }

  /** Row first + i holds the i-th appended row, value j in column j + 1. */
  lemma {:induction false} AppendRowsCells(g: Grid, first: int, rows: seq<Record>)
    ensures forall i, j :: 0 <= i < |rows| && 0 <= j < |rows[i]| ==> CellAt(AppendRows(g, first, rows), first + i, j + 1) == rows[i][j]
    decreases |rows|
  {
    if rows != [] {
      var n := |rows| - 1;
      var g0 := AppendRows(g, first, rows[..n]);
      AppendRowsCells(g, first, rows[..n]);
      RangeNoDup(|rows[n]|);
      WriteRowCells(g0, first + n, rows[n], Range(|rows[n]|), |rows[n]|);
      WriteRowFrame(g0, first + n, rows[n], Range(|rows[n]|), |rows[n]|);
      forall i, j | 0 <= i < |rows| && 0 <= j < |rows[i]|
        ensures CellAt(AppendRows(g, first, rows), first + i, j + 1) == rows[i][j]
      {
        if i < n {
          assert rows[..n][i] == rows[i];
        } else {
          assert Range(|rows[n]|)[j] == j + 1;
        }
      }
    }
  }

  /** create_sheet, then the header row and every record appended: the sheet carries no index. */
  function NewSheet(cols: seq<string>, recs: seq<Record>): SheetState
  {
    SheetState(AppendRows(Grid(map[], 0, 0), 1, [HeaderRow(cols)] + recs), [], [], map[], None)
  }

  /** A new worksheet holds the column names in row 1 and record i in row i + 2. */
  lemma {:induction false} NewSheetCells(cols: seq<string>, recs: seq<Record>)
    ensures forall j :: 0 <= j < |cols| ==> CellAt(NewSheet(cols, recs).grid, 1, j + 1) == Str(cols[j])
    ensures forall i, j :: 0 <= i < |recs| && 0 <= j < |recs[i]| ==> CellAt(NewSheet(cols, recs).grid, i + 2, j + 1) == recs[i][j]
    ensures NewSheet(cols, recs).ready == None
  {
    var rows := [HeaderRow(cols)] + recs;
    AppendRowsCells(Grid(map[], 0, 0), 1, rows);
    assert forall j :: 0 <= j < |cols| ==> CellAt(NewSheet(cols, recs).grid, 1 + 0, j + 1) == rows[0][j];
    forall i, j | 0 <= i < |recs| && 0 <= j < |recs[i]|
      ensures CellAt(NewSheet(cols, recs).grid, i + 2, j + 1) == recs[i][j]
    {
      assert rows[i + 1] == recs[i];
      assert CellAt(NewSheet(cols, recs).grid, 1 + (i + 1), j + 1) == rows[i + 1][j];
    }
  }

  // ---------------------------------------------------------------------------------------------
  // The workbook, Stats and OFXListEnd

  /** Stats: per table, the rows inserted and the rows updated. */
  type Stats = map<string, (nat, nat)>

  /** The count pair of table t, zero when missing. */
  function Counts(st: Stats, t: string): (nat, nat)
  {
    if t in st then st[t] else (0, 0)
  }

  /** The table's entry, [0, 0] when missing, raised by ins and upd. */
  function Bump(st: Stats, t: string, ins: nat, upd: nat): (r: Stats)
    ensures r.Keys == st.Keys + {t}
    ensures Counts(r, t) == (Counts(st, t).0 + ins, Counts(st, t).1 + upd)
  {
    st[t := (Counts(st, t).0 + ins, Counts(st, t).1 + upd)]
  }

  /** OFXListEnd stops on a worksheet that carries no ready flag (the AttributeError of reading
      PKIndexIsReady on a worksheet created earlier in the run) or whose index build failed (the
      ConfigurationError "Failed to Create Unique Index"). */
  datatype ListEndError = NoIndexAttribute(table: string) | IndexNotReady(table: string)

  /** The workbook's worksheets by name, Stats, and whether anything was written. */
  datatype Book = Book(sheets: map<string, SheetState>, stats: Stats, changed: bool)

  /** A table with no worksheet: a new one holding the header row and the records, all of them
      counted as inserted. */
  function NewTable(b: Book, name: string, t: Table): Book
  {
    Book(b.sheets[name := NewSheet(t.spec.cols.keys, t.records)], Bump(b.stats, name, |t.records|, 0), true)
  }

  /** The records routed into the indexed worksheet named name, and counted. */
  function Routed(b: Book, name: string, t: Table): Book
    requires name in b.sheets
  {
    var s := b.sheets[name];
    var n := Min(|t.records|, |t.keys|);
    var r := RouteAll(PlanOf(s), s.grid, t.records, t.keys, n);
    Book(b.sheets[name := s.(grid := r.grid)], Bump(b.stats, name, r.ins, r.upd), b.changed || n > 0)
  }

  /** A table whose worksheet exists: its Stats entry is created first, then the ready flag is
      read. */
  function ExistingTable(b: Book, name: string, t: Table): (r: (Book, Option<ListEndError>))
    requires name in b.sheets
    ensures r.1.None? <==> b.sheets[name].ready == Some(true)
    ensures r.1.Some? ==> r.1.value.table == name && r.0.sheets == b.sheets && r.0.changed == b.changed
    ensures name in r.0.stats
  {
    var b1 := b.(stats := Bump(b.stats, name, 0, 0));
    match b.sheets[name].ready
    case None => (b1, Some(NoIndexAttribute(name)))
    case Some(false) => (b1, Some(IndexNotReady(name)))
    case Some(true) => (Routed(b1, name, t), None)
  }

  /** One table of the current list. */
  function ListEndTable(b: Book, name: string, t: Table): (Book, Option<ListEndError>)
  {
    if name !in b.sheets then (NewTable(b, name, t), None) else ExistingTable(b, name, t)
  }

  /** A table touches only its own worksheet and its own Stats entry, which it creates. */
  lemma {:induction false} ListEndTableFrame(b: Book, name: string, t: Table, u: string)
    requires u != name
    ensures var r := ListEndTable(b, name, t).0;
      && name in r.sheets && name in r.stats
      && (u in r.sheets <==> u in b.sheets) && (u in b.sheets ==> r.sheets[u] == b.sheets[u])
      && (u in r.stats <==> u in b.stats) && (u in b.stats ==> r.stats[u] == b.stats[u])
  {
  }

  /** Tables i onward from state b, up to the first that stops. */
  function EndFrom(b: Book, ts: Tables, i: nat): (Book, Option<ListEndError>)
    requires ts.Valid() && i <= |ts.keys|
    decreases |ts.keys| - i
  {
    if i == |ts.keys| then (b, None)
    else
      var r := ListEndTable(b, ts.keys[i], ts.vals[ts.keys[i]]);
      if r.1.Some? then r else EndFrom(r.0, ts, i + 1)
  }

  /** A list end leaves the worksheet and the Stats entry of a table outside the list as they
      were. */
  lemma {:induction false} EndFromFrame(b: Book, ts: Tables, i: nat, u: string)
    requires ts.Valid() && i <= |ts.keys| && u !in ts.keys[i..]
    ensures var r := EndFrom(b, ts, i).0;
      && (u in r.sheets <==> u in b.sheets) && (u in b.sheets ==> r.sheets[u] == b.sheets[u])
      && (u in r.stats <==> u in b.stats) && (u in b.stats ==> r.stats[u] == b.stats[u])
    decreases |ts.keys| - i
  {
    if i < |ts.keys| {
      var name := ts.keys[i];
      assert ts.keys[i..][0] == name;
      ListEndTableFrame(b, name, ts.vals[name], u);
      var r := ListEndTable(b, name, ts.vals[name]);
      if r.1.None? {
        assert ts.keys[i + 1..] == ts.keys[i..][1..];
        EndFromFrame(r.0, ts, i + 1, u);
      }
    }
  }

  /** A list end that stops names a table of the list whose worksheet has no ready index. */
  lemma {:induction false} EndFromError(b: Book, ts: Tables, i: nat)
    requires ts.Valid() && i <= |ts.keys|
    ensures var r := EndFrom(b, ts, i);
      r.1.Some? ==> (
        && r.1.value.table in ts.keys[i..] && r.1.value.table in r.0.sheets
        && r.0.sheets[r.1.value.table].ready != Some(true)
        && (r.1.value.NoIndexAttribute? <==> r.0.sheets[r.1.value.table].ready == None))
    decreases |ts.keys| - i
  {
    if i < |ts.keys| {
      var name := ts.keys[i];
      var r := ListEndTable(b, name, ts.vals[name]);
      if r.1.None? {
        EndFromError(r.0, ts, i + 1);
        assert forall u :: u in ts.keys[i + 1..] ==> u in ts.keys[i..];
      } else {
        assert name in b.sheets;
        ListEndTableNotReady(b, name, ts.vals[name]);
        assert ts.keys[i..][0] == name;
      }
    }
  }

  /** An indexed worksheet fit for routing: well-formed attributes, formulas in the last row. */
  ghost predicate ReadyOk(s: SheetState)
  {
    s.ready == Some(true) ==> Routable(PlanOf(s), s.grid) && FormulaRowText(s.formulaCols, s.grid)
  }

  /** A successful index build leaves the worksheet fit for routing. */
  lemma {:induction false} IndexedReadyOk(s0: SheetState, s1: SheetState, spec: TableSpec)
    requires spec.cols.Valid() && Indexed(s0, s1, spec) && s0.ready == Some(false)
    ensures ReadyOk(s1)
  {
    if BuildIndex(s0.grid, spec).Ok? {
      BuildIndexColumns(s0.grid, spec);
      BuildIndexKeys(s0.grid, spec);
    }
  }

  /** The index pass leaves every worksheet it starts fit for routing. */
  lemma {:induction false} StartedReadyOk(s0: SheetState, s1: SheetState, spec: TableSpec)
    requires spec.cols.Valid() && Started(s0, s1, spec) && ReadyOk(s0)
    ensures ReadyOk(s1)
  {
    if !(s0.ready.Some? || s0.grid.maxRow <= 0) {
      IndexedReadyOk(s0.(ready := Some(false)), s1, spec);
    }
  }

  /** A worksheet without a successful index stops the list: nothing is written, and the table's
      Stats entry exists with its counts unchanged. */
  lemma {:induction false} ListEndTableNotReady(b: Book, name: string, t: Table)
    requires name in b.sheets && b.sheets[name].ready != Some(true)
    ensures ListEndTable(b, name, t).1 == Some(if b.sheets[name].ready == None then NoIndexAttribute(name) else IndexNotReady(name))
    ensures ListEndTable(b, name, t).0.sheets == b.sheets && ListEndTable(b, name, t).0.changed == b.changed
    ensures name in ListEndTable(b, name, t).0.stats && Counts(ListEndTable(b, name, t).0.stats, name) == Counts(b.stats, name)
  {
    var s := b.sheets[name];
    if s.ready.Some? {
      assert s.ready.value == false;
    }
  }

  /** A table with no worksheet gets a new one, header row first, and all its records count as
      inserted. */
  lemma {:induction false} ListEndTableNew(b: Book, name: string, t: Table)
    requires name !in b.sheets
    ensures ListEndTable(b, name, t).1.None? && ListEndTable(b, name, t).0.changed
    ensures Counts(ListEndTable(b, name, t).0.stats, name) == (Counts(b.stats, name).0 + |t.records|, Counts(b.stats, name).1)
    ensures var g := ListEndTable(b, name, t).0.sheets[name].grid;
      && (forall j :: 0 <= j < |t.spec.cols.keys| ==> CellAt(g, 1, j + 1) == Str(t.spec.cols.keys[j]))
      && (forall i, j :: 0 <= i < |t.records| && 0 <= j < |t.records[i]| ==> CellAt(g, i + 2, j + 1) == t.records[i][j])
  {
    NewSheetCells(t.spec.cols.keys, t.records);
  }

  /** In an indexed worksheet, the records whose key the index holds count as updated and all the
      others as inserted: together, one count per record; none is inserted exactly when the index
      holds every key. */
  lemma {:induction false} ListEndTableCounts(b: Book, name: string, t: Table)
    requires TableOk(t) && name in b.sheets && b.sheets[name].ready == Some(true) && ReadyOk(b.sheets[name])
    ensures var s := b.sheets[name];
      var u := Unmatched(s.pkIndex, t.keys, |t.keys|);
      && ListEndTable(b, name, t).1.None?
      && Counts(ListEndTable(b, name, t).0.stats, name) == (Counts(b.stats, name).0 + u, Counts(b.stats, name).1 + (|t.keys| - u))
      && (u == 0 <==> forall k <- t.keys :: k in s.pkIndex)
  {
    var s := b.sheets[name];
    var b1 := b.(stats := Bump(b.stats, name, 0, 0));
    assert ListEndTable(b, name, t) == (Routed(b1, name, t), None);
    assert Counts(b1.stats, name) == Counts(b.stats, name);
    RouteCounts(PlanOf(s), s.grid, t.records, t.keys, |t.keys|);
    UnmatchedZero(s.pkIndex, t.keys, |t.keys|);
  }

  /** In an indexed worksheet every record of the batch ends up in its destination row under the
      mapped columns, and the worksheet stays fit for routing. */
  lemma {:induction false} ListEndTableCells(b: Book, name: string, t: Table)
    requires TableOk(t) && name in b.sheets && b.sheets[name].ready == Some(true) && ReadyOk(b.sheets[name])
    requires |t.spec.cols.keys| > 0 && |b.sheets[name].colnbrs| > 0
    ensures var s := b.sheets[name];
      var g := ListEndTable(b, name, t).0.sheets[name].grid;
      && (forall i, j :: 0 <= i < |t.records| && 0 <= j < Min(|t.records[i]|, |s.colnbrs|) ==>
            CellAt(g, Dest(PlanOf(s), t.keys, i), s.colnbrs[j]) == t.records[i][j])
      && ReadyOk(ListEndTable(b, name, t).0.sheets[name])
  {
    var s := b.sheets[name];
    var p := PlanOf(s);
    var n := |t.keys|;
    assert Nonempty(p, t.records, n) by {
      forall i | 0 <= i < n ensures Min(|t.records[i]|, |p.colnbrs|) > 0 {
        assert |t.records[i]| == |t.spec.blankRec|;
      }
    }
    RouteCells(p, s.grid, t.records, t.keys, n);
    RouteCounts(p, s.grid, t.records, t.keys, n);
    RouteKeepsFormulaText(p, s.grid, t.records, t.keys, n);
  }

  // ---------------------------------------------------------------------------------------------
  // The worksheet operations

  /** ws.cell(row=r, column=cols[j]).value = vals[j] for the first n pairs. */
  method WriteCells(ws: Worksheet, r: int, vals: seq<Value>, cols: seq<int>, n: nat)
    requires n <= |vals| && n <= |cols|
    modifies ws
    ensures ws.Snap() == old(ws.Snap()).(grid := WriteRow(old(ws.grid), r, vals, cols, n))
  {
    for j := 0 to n
      invariant ws.Snap() == old(ws.Snap()).(grid := WriteRow(old(ws.grid), r, vals, cols, j))
    {
      ws.SetCellValue(r, cols[j], vals[j]);
    }
  }

  /** Each formula column of row r from the cell above it. */
  method FillCells(ws: Worksheet, r: int, fcols: seq<int>)
    modifies ws
    ensures ws.Snap() == old(ws.Snap()).(grid := FillRow(old(ws.grid), r, fcols, |fcols|))
  {
    for j := 0 to |fcols|
      invariant ws.Snap() == old(ws.Snap()).(grid := FillRow(old(ws.grid), r, fcols, j))
    {
      var c := fcols[j];
      ws.SetCellValue(r, c, FillCell(CellAt(ws.grid, r - 1, c)));
    }
  }

  /** ws.append(row) into row r of a worksheet: value j into column j + 1. */
  method AppendAt(ws: Worksheet, r: int, row: Record)
    modifies ws
    ensures ws.Snap() == old(ws.Snap()).(grid := WriteRow(old(ws.grid), r, row, Range(|row|), |row|))
  {
    WriteCells(ws, r, row, Range(|row|), |row|);
  }

  /** The header row at row 1, then each record below it. */
  method AppendAll(ws: Worksheet, cols: seq<string>, recs: seq<Record>)
    modifies ws
    ensures ws.Snap() == old(ws.Snap()).(grid := AppendRows(old(ws.grid), 1, [HeaderRow(cols)] + recs))
  {
    var rows := [HeaderRow(cols)] + recs;
    AppendAt(ws, 1, rows[0]);
    assert rows[..1][..0] == [];
    for k := 1 to |rows|
      invariant ws.Snap() == old(ws.Snap()).(grid := AppendRows(old(ws.grid), 1, rows[..k]))
    {
      assert rows[..k + 1][..k] == rows[..k];
      AppendAt(ws, k + 1, rows[k]);
    }
    assert rows[..|rows|] == rows;
  }

  /** One record into its row: destrow from the index or after the last row, the values under
      the mapped columns, and the formulas filled down into a row past origmaxrow. */
  method RouteRecord(ws: Worksheet, ghost p: Plan, origmaxrow: int, rec: Record, key: seq<Value>) returns (inserted: bool)
    requires ws.pkIndex == p.index && ws.colnbrs == p.colnbrs && ws.formulaCols == p.formulaCols && origmaxrow == p.origMax
    modifies ws
    ensures inserted == Inserted(p, old(ws.grid), key)
    ensures ws.Snap() == old(ws.Snap()).(grid := RouteGrid(p, old(ws.grid), rec, key))
  {
    var destrow := if key in ws.pkIndex then ws.pkIndex[key] else ws.grid.maxRow + 1;
    WriteCells(ws, destrow, rec, ws.colnbrs, Min(|rec|, |ws.colnbrs|));
    inserted := destrow > origmaxrow;
    if inserted {
      FillCells(ws, destrow, ws.formulaCols);
    }
  }

  /** The first n pairs of `zip(records, keys)`, with the number inserted and updated. */
  method RouteRecords(ws: Worksheet, recs: seq<Record>, keys: seq<seq<Value>>, n: nat) returns (ins: nat, upd: nat)
    requires n <= |recs| && n <= |keys|
    modifies ws
    ensures var r := RouteAll(PlanOf(old(ws.Snap())), old(ws.grid), recs, keys, n);
      ws.Snap() == old(ws.Snap()).(grid := r.grid) && ins == r.ins && upd == r.upd
  {
    ghost var s := ws.Snap();
    ghost var p := PlanOf(s);
    var origmaxrow := ws.grid.maxRow;
    ins, upd := 0, 0;
    for i := 0 to n
      invariant ws.Snap() == s.(grid := RouteAll(p, s.grid, recs, keys, i).grid)
      invariant ins == RouteAll(p, s.grid, recs, keys, i).ins && upd == RouteAll(p, s.grid, recs, keys, i).upd
    {
      var inserted := RouteRecord(ws, p, origmaxrow, recs[i], keys[i]);
      if inserted {
        ins := ins + 1;
      } else {
        upd := upd + 1;
      }
    }
  }

  // ---------------------------------------------------------------------------------------------
  // The writer object

  class ExcelWBWriter {
    const base: Writer
    var wb: map<string, Worksheet>
    var stats: Stats
    var anyChanges: bool

    ghost predicate Valid()
      reads this
    {
      Separate(wb)
    }

    ghost function Sheets(): map<string, SheetState>
      reads this, wb.Values
    {
      map n | n in wb :: wb[n].Snap()
    }

    ghost function State(): Book
      reads this, wb.Values
    {
      Book(Sheets(), stats, anyChanges)
    }

    /** ExcelWBWriter on the loaded workbook and the base writer: every worksheet a table names is
        indexed, and nothing is written yet. */
    constructor (w: Writer, loaded: map<string, Worksheet>)
      requires w.Valid() && Separate(loaded)
      modifies loaded.Values
      ensures base == w && wb == loaded && stats == map[] && !anyChanges && Valid()
      ensures forall n <- wb.Keys :: IndexedBy(old(loaded[n].Snap()), wb[n].Snap(), RegPairs(w.lists, w.lists.keys), n)
    {
      base := w;
      wb := loaded;
      stats := map[];
      anyChanges := false;
      new;
      RegistryFromState(WState(w.lists, w.cur));
      IndexAllWorksheets(w.lists, loaded);
    }

    /** A table without a worksheet: create_sheet, the rows appended, every record inserted. */
    method AddSheet(name: string, t: Table)
      requires Valid() && name !in wb
      modifies this
      ensures Valid() && name in wb && fresh(wb[name]) && wb == old(wb)[name := wb[name]]
      ensures State() == NewTable(old(State()), name, t)
    {
      var ws := new Worksheet(Grid(map[], 0, 0));
      AppendAll(ws, t.spec.cols.keys, t.records);
      wb := wb[name := ws];
      anyChanges := true;
      stats := Bump(stats, name, |t.records|, 0);
      SheetsAdded(name);
    }

    /** A table whose worksheet exists: the Stats entry, the ready flag, then every record routed
        to its row. */
    method EndExisting(name: string, t: Table) returns (err: Option<ListEndError>)
      requires Valid() && name in wb
      modifies this`stats, this`anyChanges, wb[name]
      ensures Valid()
      ensures (State(), err) == ExistingTable(old(State()), name, t)
    {
      var ws := wb[name];
      if name !in stats {
        stats := stats[name := (0, 0)];
      }
      assert stats == Bump(old(stats), name, 0, 0);
      assert State() == old(State()).(stats := stats);
      if ws.ready.None? {
        return Some(NoIndexAttribute(name));
      }
      if !ws.ready.value {
        return Some(IndexNotReady(name));
      }
      RouteInto(name, t);
      err := None;
    }

    /** The records of a table into its indexed worksheet: each record to its row, each counted. */
    method RouteInto(name: string, t: Table)
      requires Valid() && name in wb && name in stats
      modifies this`stats, this`anyChanges, wb[name]
      ensures Valid()
      ensures State() == Routed(old(State()), name, t)
    {
      var ws := wb[name];
      ghost var s := ws.Snap();
      var n := Min(|t.records|, |t.keys|);
      var ins, upd := RouteRecords(ws, t.records, t.keys, n);
      ghost var r := RouteAll(PlanOf(s), s.grid, t.records, t.keys, n);
      stats := stats[name := (stats[name].0 + ins, stats[name].1 + upd)];
      assert stats == Bump(old(stats), name, r.ins, r.upd);
      anyChanges := anyChanges || n > 0;
      SheetsAfter(name);
    }

    /** The worksheet named n was added, and no other changed. */
    twostate lemma SheetsAdded(n: string)
      requires old(Valid()) && n !in old(wb) && n in wb && fresh(wb[n]) && wb == old(wb)[n := wb[n]]
      requires forall u <- old(wb).Keys :: unchanged(old(wb)[u])
      ensures Valid() && Sheets() == old(Sheets())[n := wb[n].Snap()]
    {
    }

    /** Only the worksheet named n changed. */
    twostate lemma SheetsAfter(n: string)
      requires old(Valid()) && n in old(wb) && wb == old(wb)
      requires forall u <- wb.Keys :: u != n ==> unchanged(wb[u])
      ensures Sheets() == old(Sheets())[n := wb[n].Snap()]
    {
    }

    /** Table i of the current list: a new worksheet, or the records into the existing one. */
    method EndOne(ts: Tables, i: nat) returns (err: Option<ListEndError>)
      requires Valid() && ts.Valid() && i < |ts.keys|
      modifies this, if ts.keys[i] in wb then {wb[ts.keys[i]]} else {}
      ensures Valid() && ts.keys[i] in wb && wb == old(wb)[ts.keys[i] := wb[ts.keys[i]]]
      ensures if ts.keys[i] in old(wb) then wb[ts.keys[i]] == old(wb[ts.keys[i]]) else fresh(wb[ts.keys[i]])
      ensures (State(), err) == ListEndTable(old(State()), ts.keys[i], ts.vals[ts.keys[i]])
    {
      var name := ts.keys[i];
      if name !in wb {
        AddSheet(name, ts.vals[name]);
        err := None;
      } else {
        err := EndExisting(name, ts.vals[name]);
      }
    }

    /** OFXListEnd: each table of the current list, in order, into its worksheet; the first
        worksheet without a ready index stops the list. */
    method ListEnd() returns (err: Option<ListEndError>)
      requires Valid() && base.Valid()
      modifies this, wb.Values
      ensures Valid()
      ensures base.cur.None? ==> State() == old(State()) && err.None?
      ensures base.cur.Some? ==> (State(), err) == EndFrom(old(State()), base.lists.vals[base.cur.value], 0)
    {
      if base.cur.None? {
        return None;
      }
      var ts := base.lists.vals[base.cur.value];
      assert TablesOk(ts);
      err := EndList(ts);
    }

    /** The tables of one list in order, up to the first that stops. */
    method EndList(ts: Tables) returns (err: Option<ListEndError>)
      requires Valid() && ts.Valid()
      modifies this, wb.Values
      ensures Valid()
      ensures (State(), err) == EndFrom(old(State()), ts, 0)
    {
      ghost var loaded := wb.Values;
      for i := 0 to |ts.keys|
        invariant Valid() && EndFrom(State(), ts, i) == EndFrom(old(State()), ts, 0)
        invariant forall n <- wb.Keys :: wb[n] in loaded || fresh(wb[n])
      {
        err := EndOne(ts, i);
        if err.Some? {
          return err;
        }
      }
      err := None;
    }
  }

  lemma {:induction false} RegistryFromState(s: WState)
    requires StateOk(s)
    ensures RegistryOk(s.lists)
  {
    forall l <- s.lists.vals.Keys ensures s.lists.vals[l].Valid() && forall t <- s.lists.vals[l].vals.Keys :: s.lists.vals[l].vals[t].spec.cols.Valid() {
      assert TablesOk(s.lists.vals[l]);
    }
  }
}
