/** PostgresWriter.py: at the end of each OFX list, every table of the list goes to the database in
    two steps. The records are inserted into a temporary copy of the table ("<table>_Hold"), then
    merged into the permanent table on the key columns. A count of key matches is taken first so
    that inserts and updates are tallied apart. */
module Postgres {
  import opened Wrappers
  import opened Values
  import opened Strs
  import opened Dicts
  import opened Compiler
  import opened Accumulator

  // ---------------------------------------------------------------------------------------------
  // The SQL text

  /** "{schema}".format(schema): a missing schema setting is the Python None, written "None". */
  function SchemaText(schema: Option<string>): string
  {
    match schema
    case None => "None"
    case Some(s) => s
  }

  /** A double-quoted identifier. */
  function Quoted(name: string): string { "\"" + name + "\"" }

  /** The temporary table's name. */
  function HoldName(table: string): string { table + "_Hold" }

  /** "schema"."table": the permanent table. */
  function Target(schema: Option<string>, table: string): string { Quoted(SchemaText(schema)) + "." + Quoted(table) }

  function ColItems(cols: seq<string>): seq<string>
  {
    seq(|cols|, i requires 0 <= i < |cols| => Quoted(cols[i]))
  }

  /** ",".join('"c"' for every column). */
  function ColList(cols: seq<string>): string { Join(ColItems(cols), ",") }

  /** M."pk"=t."pk". */
  function PkEq(pk: string): string { "M." + Quoted(pk) + "=t." + Quoted(pk) }

  function PkEqs(pks: seq<string>): seq<string>
  {
    seq(|pks|, i requires 0 <= i < |pks| => PkEq(pks[i]))
  }

  /** The join condition on the key columns, joined by " AND ". */
  function OnClause(pks: seq<string>): string { Join(PkEqs(pks), " AND ") }

  function CreateTemp(schema: Option<string>, table: string): string
  {
    "Create Temp Table " + Quoted(HoldName(table)) + " (LIKE " + Target(schema, table) + ")"
  }

  /** The insert execute_values fills in, one row per record. */
  function InsertTemp(table: string, cols: seq<string>): string
  {
    "Insert Into " + Quoted(HoldName(table)) + " (" + ColList(cols) + ") VALUES %s"
  }

  /** The count of temporary rows whose key is already in the table; "Select 0" without keys. */
  function MatchFrom(schema: Option<string>, table: string): string
  {
    "Select count(*) From " + Quoted(HoldName(table)) + " t Inner Join " + Target(schema, table) + " M"
  }

  function MatchQuery(schema: Option<string>, table: string, pks: seq<string>): string
  {
    if |pks| > 0 then MatchFrom(schema, table) + " ON " + OnClause(pks) else "Select 0"
  }

  /** The columns of cols that are not key columns, in the order of cols. */
  function NonPk(cols: seq<string>, pks: seq<string>): seq<string>
  {
    if cols == [] then []
    else NonPk(cols[..|cols| - 1], pks) + (if cols[|cols| - 1] in pks then [] else [cols[|cols| - 1]])
  }

  /** "c"=t."c". */
  function SetItem(c: string): string { Quoted(c) + "=t." + Quoted(c) }

  function SetItems(cs: seq<string>): seq<string>
  {
    seq(|cs|, i requires 0 <= i < |cs| => SetItem(cs[i]))
  }

  /** The assignments of the update branch: every non-key column, separated by ", ". */
  function SetList(cols: seq<string>, pks: seq<string>): string { Join(SetItems(NonPk(cols, pks)), ", ") }

  function ValueItems(cols: seq<string>): seq<string>
  {
    seq(|cols|, i requires 0 <= i < |cols| => "t." + Quoted(cols[i]))
  }

  /** The values of the insert branch: t."c" for every column. */
  function ValuesList(cols: seq<string>): string { "(" + Join(ValueItems(cols), ", ") + ")" }

  function MergeFrom(schema: Option<string>, table: string): string
  {
    "Merge Into " + Target(schema, table) + " M Using " + Quoted(HoldName(table)) + " t"
  }

  /** The MERGE up to and including its ON clause. */
  function MergeHead(schema: Option<string>, table: string, pks: seq<string>): string
  {
    MergeFrom(schema, table) + " ON " + OnClause(pks)
  }

  function MergeText(schema: Option<string>, table: string, cols: seq<string>, pks: seq<string>): string
  {
    MergeHead(schema, table, pks) + " When Matched Then Update Set " + SetList(cols, pks)
      + " When Not Matched Then Insert (" + ColList(cols) + ") Values " + ValuesList(cols)
  }

  function DropTemp(table: string): string { "Drop Table " + Quoted(HoldName(table)) }

  // ---------------------------------------------------------------------------------------------
  // What the text promises

  /** The insert's column list splits back, at its commas, into every column double-quoted, in
      order (for column names without commas). */
  lemma {:induction false} ColListSplits(cols: seq<string>)
    requires |cols| > 0 && forall c <- cols :: ',' !in c
    ensures Split(ColList(cols), ',') == ColItems(cols)
  {
    forall i | 0 <= i < |cols| ensures ',' !in ColItems(cols)[i] {
      assert cols[i] in cols;
    }
    SplitJoin(ColItems(cols), ',');
  }

  /** The merge's insert branch names the same columns, in the same order, in its column list and
      in its values list. */
  lemma {:induction false} InsertBranchAligned(cols: seq<string>)
    ensures |ValueItems(cols)| == |ColItems(cols)| == |cols|
    ensures forall i :: 0 <= i < |cols| ==> ValueItems(cols)[i] == "t." + ColItems(cols)[i]
  {
  }

  /** "Select 0" exactly when the table has no key columns; otherwise the count query joins on
      the same condition as the MERGE. */
  lemma {:induction false} MatchQueryShape(schema: Option<string>, table: string, pks: seq<string>)
    ensures MatchQuery(schema, table, pks) == "Select 0" <==> |pks| == 0
    ensures |pks| > 0 ==>
      && |MatchFrom(schema, table)| <= |MatchQuery(schema, table, pks)|
      && MatchQuery(schema, table, pks)[|MatchFrom(schema, table)|..]
         == MergeHead(schema, table, pks)[|MergeFrom(schema, table)|..]
  {
    if |pks| > 0 {
      var on := " ON " + OnClause(pks);
      var m, f := MatchFrom(schema, table), MergeFrom(schema, table);
      assert |m| >= 22;
      assert (m + on)[|m|..] == on;
      assert (f + on)[|f|..] == on;
    }
  }

  /** Without key columns the ON clause is empty (the database then refuses the MERGE). */
  lemma {:induction false} NoKeyMerge(schema: Option<string>, table: string)
    ensures MergeHead(schema, table, []) == MergeFrom(schema, table) + " ON "
  {
    assert |PkEqs([])| == 0;
  }

  lemma {:induction false} PrefixOf(a: string, b: string)
    ensures StartsWith(a + b, a)
  {
    assert (a + b)[..|a|] == a;
  }

  /** Create, insert and drop all name the temporary table "<table>_Hold". */
  lemma {:induction false} HoldEverywhere(schema: Option<string>, table: string, cols: seq<string>)
    ensures StartsWith(CreateTemp(schema, table), "Create Temp Table " + Quoted(HoldName(table)))
    ensures StartsWith(InsertTemp(table, cols), "Insert Into " + Quoted(HoldName(table)))
    ensures DropTemp(table) == "Drop Table " + Quoted(HoldName(table))
  {
    var h := Quoted(HoldName(table));
    PrefixOf("Create Temp Table " + h, " (LIKE " + Target(schema, table) + ")");
    PrefixOf("Insert Into " + h, " (" + ColList(cols) + ") VALUES %s");
  }

  /** The merge reads the temporary table into the permanent one. */
  lemma {:induction false} MergeReadsHold(schema: Option<string>, table: string, cols: seq<string>, pks: seq<string>)
    ensures StartsWith(MergeText(schema, table, cols, pks), "Merge Into " + Target(schema, table) + " M Using " + Quoted(HoldName(table)))
  {
    var m := "Merge Into " + Target(schema, table) + " M Using " + Quoted(HoldName(table));
    var from := MergeFrom(schema, table);
    var text := MergeText(schema, table, cols, pks);
    PrefixOf(m, " t");
    PrefixOf(from, text[|from|..]);
    assert text == from + text[|from|..];
  }

  /** The update branch assigns exactly the non-key columns. */
  lemma {:induction false} NonPkMembers(cols: seq<string>, pks: seq<string>)
    ensures forall c :: c in NonPk(cols, pks) <==> c in cols && c !in pks
    decreases |cols|
  {
    if cols != [] {
      NonPkMembers(cols[..|cols| - 1], pks);
      assert cols == cols[..|cols| - 1] + [cols[|cols| - 1]];
    }
  }

  /** ... each once, when the columns are distinct ... */
  lemma {:induction false} NonPkNoDup(cols: seq<string>, pks: seq<string>)
    requires NoDup(cols)
    ensures NoDup(NonPk(cols, pks))
    decreases |cols|
  {
    if cols != [] {
      var init, last := cols[..|cols| - 1], cols[|cols| - 1];
      assert NoDup(init);
      NonPkNoDup(init, pks);
      NonPkMembers(init, pks);
      assert last !in init;
    }
  }

  /** ... and in the order of the columns: the non-key columns of a prefix come first. */
  lemma {:induction false} NonPkOrder(cols: seq<string>, pks: seq<string>, j: nat)
    requires j <= |cols|
    ensures NonPk(cols[..j], pks) <= NonPk(cols, pks)
    decreases |cols|
  {
    if j < |cols| {
      var init := cols[..|cols| - 1];
      assert cols[..j] == init[..j];
      NonPkOrder(init, pks, j);
    } else {
      assert cols[..j] == cols;
    }
  }

  // ---------------------------------------------------------------------------------------------
  // Building the MERGE

  lemma {:induction false} JoinSnoc(xs: seq<string>, x: string, sep: string)
    ensures Join(xs + [x], sep) == if xs == [] then x else Join(xs, sep) + sep + x
    decreases |xs|
  {
    if |xs| == 1 {
      assert xs + [x] == [xs[0], x];
      assert [xs[0], x][1..] == [x];
    } else if |xs| > 1 {
      JoinSnoc(xs[1..], x, sep);
      assert (xs + [x])[1..] == xs[1..] + [x];
    }
  }

  /** One more column: a non-key column adds its assignment, after ", " unless it is the first. */
  lemma {:induction false} SetListStep(cols: seq<string>, pks: seq<string>, i: nat)
    requires i < |cols|
    ensures cols[i] in pks ==> SetList(cols[..i + 1], pks) == SetList(cols[..i], pks)
    ensures cols[i] !in pks ==> NonPk(cols[..i + 1], pks) != []
    ensures cols[i] !in pks ==>
      SetList(cols[..i + 1], pks) == SetList(cols[..i], pks) + (if NonPk(cols[..i], pks) == [] then "" else ", ") + SetItem(cols[i])
  {
    var done := NonPk(cols[..i], pks);
    var pre := cols[..i + 1];
    assert pre[..|pre| - 1] == cols[..i] && pre[|pre| - 1] == cols[i];
    if cols[i] !in pks {
      assert NonPk(cols[..i + 1], pks) == done + [cols[i]];
      JoinSnoc(SetItems(done), SetItem(cols[i]), ", ");
      assert SetItems(done + [cols[i]]) == SetItems(done) + [SetItem(cols[i])];
      assert SetItems(done) == [] <==> done == [];
    } else {
      assert NonPk(cols[..i + 1], pks) == done;
    }
  }

  /** The SET list with the connector: empty before the first non-key column, ", " after. */
  method AppendSetList(head: string, cols: seq<string>, pks: seq<string>) returns (merge: string)
    ensures merge == head + SetList(cols, pks)
  {
    merge := head;
    var connector := "";
    for i := 0 to |cols|
      invariant merge == head + SetList(cols[..i], pks)
      invariant connector == if NonPk(cols[..i], pks) == [] then "" else ", "
    {
      SetListStep(cols, pks, i);
      if cols[i] !in pks {
        Assoc4(head, SetList(cols[..i], pks), connector, SetItem(cols[i]));
        merge := merge + connector + SetItem(cols[i]);
        connector := ", ";
      }
    }
    assert cols[..|cols|] == cols;
  }

  /** The five statements of one table. */
  datatype Statements = Statements(create: string, insert: string, matches: string, merge: string, drop: string)

  function StatementsOf(schema: Option<string>, table: string, cols: seq<string>, pks: seq<string>): Statements
  {
    Statements(CreateTemp(schema, table), InsertTemp(table, cols), MatchQuery(schema, table, pks),
               MergeText(schema, table, cols, pks), DropTemp(table))
  }

  method BuildStatements(schema: Option<string>, table: string, cols: seq<string>, pks: seq<string>) returns (st: Statements)
    ensures st == StatementsOf(schema, table, cols, pks)
  {
    var merge := MergeHead(schema, table, pks) + " When Matched Then Update Set ";
    merge := AppendSetList(merge, cols, pks);
    merge := merge + " When Not Matched Then Insert (" + ColList(cols) + ") Values ";
    merge := merge + ValuesList(cols);
    st := Statements(CreateTemp(schema, table), InsertTemp(table, cols), MatchQuery(schema, table, pks),
                     merge, DropTemp(table));
  }

  // ---------------------------------------------------------------------------------------------
  // Statistics and the list end

  /** Per table: (inserted, updated). Python ints, so a difference may be negative. */
  type PgStats = map<string, (int, int)>

  function Counts(stats: PgStats, table: string): (int, int)
  {
    if table in stats then stats[table] else (0, 0)
  }

  /** One table's tally: the entry starts at [0, 0]; the merge's row count less the matches are
      inserts, the matches are updates. */
  function Tally(stats: PgStats, table: string, total: int, matched: int): (r: PgStats)
    ensures r.Keys == stats.Keys + {table}
    ensures r[table].0 + r[table].1 == Counts(stats, table).0 + Counts(stats, table).1 + total
    ensures r[table].1 - Counts(stats, table).1 == matched
  {
    var (ins, upd) := Counts(stats, table);
    stats[table := (ins + total - matched, upd + matched)]
  }

  /** One entry k after a tally of table. */
  lemma {:induction false} TallyAt(stats: PgStats, table: string, total: int, matched: int, k: string)
    ensures k in Tally(stats, table, total, matched) <==> k in stats || k == table
    ensures k == table ==> Tally(stats, table, total, matched)[k] == (Counts(stats, k).0 + total - matched, Counts(stats, k).1 + matched)
    ensures k != table && k in stats ==> Tally(stats, table, total, matched)[k] == stats[k]
  {
  }

  /** What the database answers for one table: the matching-key count and the merge's row count. */
  datatype DbReply = DbReply(matched: int, total: int)

  /** The cursor calls, in order: plain executes, the execute_values insert with the records,
      and commits. */
  datatype Sql = Exec(text: string) | ExecValues(text: string, rows: seq<Record>) | Commit

  function TableSql(schema: Option<string>, table: string, t: Table): seq<Sql>
  {
    var st := StatementsOf(schema, table, t.spec.cols.keys, t.spec.pkCols.keys);
    [Exec(st.create), ExecValues(st.insert, t.records), Exec(st.matches), Exec(st.merge), Exec(st.drop), Commit]
  }

  /** The blocks of the first i tables of the list, in list order. */
  function Blocks(schema: Option<string>, ts: Tables, i: nat): seq<seq<Sql>>
    requires ts.Valid() && i <= |ts.keys|
  {
    seq(i, m => if 0 <= m < |ts.keys| && ts.keys[m] in ts.vals then TableSql(schema, ts.keys[m], ts.vals[ts.keys[m]]) else [])
  }

  /** The blocks one after another. */
  function Flat<T>(bs: seq<seq<T>>): seq<T>
  {
    if bs == [] then [] else Flat(bs[..|bs| - 1]) + bs[|bs| - 1]
  }

  /** The statements run for the first i tables of the list. */
  function LogUpTo(schema: Option<string>, ts: Tables, i: nat): seq<Sql>
    requires ts.Valid() && i <= |ts.keys|
  {
    Flat(Blocks(schema, ts, i))
  }

  /** The stats after the tallies of the given tables, in order. */
  function StatsAfter(stats: PgStats, tables: seq<string>, db: string -> DbReply): PgStats
    decreases |tables|
  {
    if tables == [] then stats
    else
      var last := tables[|tables| - 1];
      Tally(StatsAfter(stats, tables[..|tables| - 1], db), last, db(last).total, db(last).matched)
  }

  lemma {:induction false} StatsStep(stats: PgStats, tables: seq<string>, i: nat, db: string -> DbReply)
    requires i < |tables|
    ensures StatsAfter(stats, tables[..i + 1], db)
      == Tally(StatsAfter(stats, tables[..i], db), tables[i], db(tables[i]).total, db(tables[i]).matched)
  {
    assert tables[..i + 1][..i] == tables[..i];
  }

  /** After the tallies of distinct tables, a table among them has been tallied exactly once, and
      every other entry is as it was. */
  lemma {:induction false} StatsEntry(stats: PgStats, tables: seq<string>, db: string -> DbReply, k: string)
    requires Unique(tables)
    ensures k in StatsAfter(stats, tables, db) <==> k in stats || k in tables
    ensures k in tables ==>
      StatsAfter(stats, tables, db)[k] == (Counts(stats, k).0 + db(k).total - db(k).matched, Counts(stats, k).1 + db(k).matched)
    ensures k in stats && k !in tables ==> StatsAfter(stats, tables, db)[k] == stats[k]
    decreases |tables|
  {
    if tables != [] {
      var n := |tables| - 1;
      var pre, last := tables[..n], tables[n];
      StatsEntry(stats, pre, db, k);
      TallyAt(StatsAfter(stats, pre, db), last, db(last).total, db(last).matched, k);
      assert tables == pre + [last];
    }
  }

  // ---------------------------------------------------------------------------------------------
  // Tables whose MERGE fails

  /** Whether PostgreSQL accepts the table's MERGE. Without key columns the ON clause is empty;
      when every column is a key column the SET list is empty. Either way the statement is a
      syntax error, and the error leaves OFXListEnd. */
  predicate Mergeable(t: Table)
  {
    |t.spec.pkCols.keys| > 0 && NonPk(t.spec.cols.keys, t.spec.pkCols.keys) != []
  }

  lemma {:induction false} JoinHead(xs: seq<string>, sep: string)
    requires xs != []
    ensures |Join(xs, sep)| >= |xs[0]|
  {
  }

  /** A MERGE is accepted exactly when neither its ON clause nor its SET list is empty. */
  lemma {:induction false} MergeableText(t: Table)
    ensures var cols, pks := t.spec.cols.keys, t.spec.pkCols.keys;
      Mergeable(t) <==> OnClause(pks) != "" && SetList(cols, pks) != ""
  {
    var cols, pks := t.spec.cols.keys, t.spec.pkCols.keys;
    if pks != [] {
      JoinHead(PkEqs(pks), " AND ");
    }
    var non := NonPk(cols, pks);
    if non != [] {
      JoinHead(SetItems(non), ", ");
    }
  }

  /** A table whose only column, ID, is its key: the SET list is empty, so its MERGE fails. */
  lemma {:induction false} OnlyKeyColumnFails(spec: TableSpec, t: Table)
    requires spec.cols == Dict(["ID"], map["ID" := 0]) && spec.pkCols == spec.cols && t.spec == spec
    ensures SetList(spec.cols.keys, spec.pkCols.keys) == "" && !Mergeable(t)
  {
    assert NonPk(["ID"], ["ID"]) == NonPk([], ["ID"]);
  }

  /** The SQL error raised by a MERGE that PostgreSQL rejects. */
  datatype PgError = MergeFailed(table: string)

  /** The first position at or after i whose table's MERGE fails, or the number of tables. */
  function FailingFrom(ts: Tables, i: nat): (n: nat)
    requires ts.Valid() && i <= |ts.keys|
    ensures i <= n <= |ts.keys|
    ensures forall j :: i <= j < n ==> Mergeable(ts.vals[ts.keys[j]])
    ensures n < |ts.keys| ==> !Mergeable(ts.vals[ts.keys[n]])
    decreases |ts.keys| - i
  {
    if i == |ts.keys| || !Mergeable(ts.vals[ts.keys[i]]) then i else FailingFrom(ts, i + 1)
  }

  /** How far the list end gets: every table before this position is merged; the table at it, if
      any, is the first whose MERGE fails, and that stops the list end. */
  function FirstFailing(ts: Tables): (n: nat)
    requires ts.Valid()
    ensures n <= |ts.keys|
    ensures forall j :: 0 <= j < n ==> Mergeable(ts.vals[ts.keys[j]])
    ensures n < |ts.keys| ==> !Mergeable(ts.vals[ts.keys[n]])
  {
    FailingFrom(ts, 0)
  }

  /** The statements a table whose MERGE fails gets to run: the temporary table is created and
      filled and the match count taken; the MERGE is sent and fails, so neither the drop nor the
      commit follows. */
  function FailedSql(schema: Option<string>, table: string, t: Table): seq<Sql>
  {
    TableSql(schema, table, t)[..4]
  }

  /** Everything one list end sends: the blocks of the tables before the first whose MERGE fails,
      then the four statements that one gets to. */
  function ListSql(schema: Option<string>, ts: Tables): seq<Sql>
    requires ts.Valid()
  {
    var n := FirstFailing(ts);
    LogUpTo(schema, ts, n) + (if n < |ts.keys| then FailedSql(schema, ts.keys[n], ts.vals[ts.keys[n]]) else [])
  }

  /** What a list end reports: the failing table's error, or none when every MERGE is accepted. */
  function ListError(ts: Tables): (r: Option<PgError>)
    requires ts.Valid()
    ensures r.None? <==> forall j :: 0 <= j < |ts.keys| ==> Mergeable(ts.vals[ts.keys[j]])
    ensures r.Some? ==> r.value.table in ts.vals && !Mergeable(ts.vals[r.value.table])
  {
    var n := FirstFailing(ts);
    if n < |ts.keys| then Some(MergeFailed(ts.keys[n])) else None
  }

  /** A list end that fails sends six statements for each table before the failing one, then that
      table's four; the last is its MERGE, whose ON clause or SET list is empty. Neither a drop
      nor a commit follows it. */
  lemma {:induction false} FailedListEndsWithMerge(schema: Option<string>, ts: Tables)
    requires ts.Valid() && ListError(ts).Some?
    ensures var sql, n := ListSql(schema, ts), FirstFailing(ts);
      var name := ts.keys[n];
      && ListError(ts).value.table == name
      && |sql| == 6 * n + 4
      && sql[|sql| - 1] == Exec(MergeText(schema, name, ts.vals[name].spec.cols.keys, ts.vals[name].spec.pkCols.keys))
      && (OnClause(ts.vals[name].spec.pkCols.keys) == "" || SetList(ts.vals[name].spec.cols.keys, ts.vals[name].spec.pkCols.keys) == "")
      && forall j :: 6 * n <= j < |sql| ==> sql[j] != Commit && !(sql[j].Exec? && sql[j].text == DropTemp(name))
  {
    var n := FirstFailing(ts);
    var name := ts.keys[n];
    var bs := Blocks(schema, ts, n);
    forall m | 0 <= m < |bs| ensures |bs[m]| == 6 {
      TableBlock(schema, ts.keys[m], ts.vals[ts.keys[m]]);
    }
    FlatLength(bs);
    TableBlock(schema, name, ts.vals[name]);
    MergeableText(ts.vals[name]);
    DropNotMerge(schema, name, ts.vals[name]);
  }

  /** The first four statements of a table's block are neither its drop nor a commit. */
  lemma {:induction false} DropNotMerge(schema: Option<string>, table: string, t: Table)
    ensures forall k :: 0 <= k < 4 ==>
      (TableSql(schema, table, t)[k] != Commit
       && !(TableSql(schema, table, t)[k].Exec? && TableSql(schema, table, t)[k].text == DropTemp(table)))
  {
    TableBlock(schema, table, t);
  }

  /** The stats after a list end: the tables merged, those before the first whose MERGE fails,
      are tallied once each; that table and the ones after it, and every other entry, are as they
      were. */
  lemma {:induction false} ListStats(stats: PgStats, ts: Tables, db: string -> DbReply, k: string)
    requires ts.Valid()
    ensures var done := ts.keys[..FirstFailing(ts)];
      k in StatsAfter(stats, done, db) <==> k in stats || k in done
    ensures var done := ts.keys[..FirstFailing(ts)];
      k in done ==>
        && Mergeable(ts.vals[k])
        && StatsAfter(stats, done, db)[k] == (Counts(stats, k).0 + db(k).total - db(k).matched, Counts(stats, k).1 + db(k).matched)
    ensures var done := ts.keys[..FirstFailing(ts)];
      k in stats && k !in done ==> StatsAfter(stats, done, db)[k] == stats[k]
  {
    var n := FirstFailing(ts);
    var done := ts.keys[..n];
    assert NoDup(done) by {
      forall a, b | 0 <= a < b < |done| ensures done[a] != done[b] {
        assert done[a] == ts.keys[a] && done[b] == ts.keys[b];
      }
    }
    NoDupUnique(done);
    StatsEntry(stats, done, db, k);
    if k in done {
      var j :| 0 <= j < |done| && done[j] == k;
      assert ts.keys[j] == k;
    }
  }

  lemma {:induction false} FlatSnoc<T>(bs: seq<seq<T>>, b: seq<T>)
    ensures Flat(bs + [b]) == Flat(bs) + b
  {
    assert (bs + [b])[..|bs|] == bs;
  }

  /** Blocks of six items each: item k of block j sits at 6 * j + k. */
  lemma {:induction false} FlatEntry<T>(bs: seq<seq<T>>, j: nat, k: nat)
    requires forall m :: 0 <= m < |bs| ==> |bs[m]| == 6
    requires j < |bs| && k < 6
    ensures |Flat(bs)| == 6 * |bs| && Flat(bs)[6 * j + k] == bs[j][k]
    decreases |bs|
  {
    var n := |bs| - 1;
    FlatLength(bs[..n]);
    if j < n {
      FlatEntry(bs[..n], j, k);
    }
  }

  lemma {:induction false} FlatLength<T>(bs: seq<seq<T>>)
    requires forall m :: 0 <= m < |bs| ==> |bs[m]| == 6
    ensures |Flat(bs)| == 6 * |bs|
    decreases |bs|
  {
    if bs != [] {
      FlatLength(bs[..|bs| - 1]);
    }
  }

  /** The next table's block is added at the end of the log. */
  lemma {:induction false} LogStep(schema: Option<string>, ts: Tables, i: nat)
    requires ts.Valid() && i < |ts.keys|
    ensures LogUpTo(schema, ts, i + 1) == LogUpTo(schema, ts, i) + TableSql(schema, ts.keys[i], ts.vals[ts.keys[i]])
  {
    var blk := TableSql(schema, ts.keys[i], ts.vals[ts.keys[i]]);
    var bs, bs1 := Blocks(schema, ts, i), Blocks(schema, ts, i + 1);
    forall m | 0 <= m < i ensures bs1[m] == bs[m] {}
    assert bs1 == bs + [blk];
    FlatSnoc(Blocks(schema, ts, i), blk);
  }

  /** The statements of the first i tables come six per table, each table's block whole and in
      list order. */
  lemma {:induction false} LogEntry(schema: Option<string>, ts: Tables, i: nat, j: nat, k: nat)
    requires ts.Valid() && j < i <= |ts.keys| && k < 6
    ensures |LogUpTo(schema, ts, i)| == 6 * i && 6 * j + k < |LogUpTo(schema, ts, i)|
    ensures LogUpTo(schema, ts, i)[6 * j + k] == TableSql(schema, ts.keys[j], ts.vals[ts.keys[j]])[k]
  {
    var bs := Blocks(schema, ts, i);
    forall m | 0 <= m < |bs| ensures |bs[m]| == 6 {
      TableBlock(schema, ts.keys[m], ts.vals[ts.keys[m]]);
    }
    FlatEntry(bs, j, k);
  }

  /** One table's block: the temporary table is created, filled, counted against, merged and
      dropped, and the work committed. */
  lemma {:induction false} TableBlock(schema: Option<string>, table: string, t: Table)
    ensures var sql := TableSql(schema, table, t);
      && |sql| == 6
      && sql[0] == Exec(CreateTemp(schema, table))
      && sql[1] == ExecValues(InsertTemp(table, t.spec.cols.keys), t.records)
      && sql[2] == Exec(MatchQuery(schema, table, t.spec.pkCols.keys))
      && sql[3] == Exec(MergeText(schema, table, t.spec.cols.keys, t.spec.pkCols.keys))
      && sql[4] == Exec(DropTemp(table))
      && sql[5] == Commit
  {
  }

  lemma {:induction false} Assoc<T>(a: seq<T>, b: seq<T>, c: seq<T>)
    ensures a + b + c == a + (b + c)
  {
  }

  lemma {:induction false} Assoc4<T>(a: seq<T>, b: seq<T>, c: seq<T>, d: seq<T>)
    ensures a + b + c + d == a + (b + c + d)
  {
  }

  class PostgresDBWriter {
    const base: Writer
    const schema: Option<string>
    var stats: PgStats
    /** The statements run on the session so far. */
    var log: seq<Sql>

    /** The writer after connecting: the schema setting (None when absent) and nothing run yet. */
    constructor (w: Writer, plist: map<string, string>)
      ensures base == w && schema == (if "schema" in plist then Some(plist["schema"]) else None)
      ensures stats == map[] && log == []
    {
      base := w;
      schema := if "schema" in plist then Some(plist["schema"]) else None;
      stats := map[];
      log := [];
    }

    /** OFXListEnd: every table of the current list, in order, through the temporary table into
        the permanent one, until a MERGE fails. */
    method ListEnd(db: string -> DbReply) returns (err: Option<PgError>)
      requires base.Valid()
      modifies this`stats, this`log
      ensures base.cur.None? ==> err == None && stats == old(stats) && log == old(log)
      ensures base.cur.Some? ==>
        var ts := base.lists.vals[base.cur.value];
        && ts.Valid()
        && err == ListError(ts)
        && stats == StatsAfter(old(stats), ts.keys[..FirstFailing(ts)], db)
        && log == old(log) + ListSql(schema, ts)
    {
      if base.cur.None? {
        return None;
      }
      var ts := base.lists.vals[base.cur.value];
      assert TablesOk(ts);
      err := WriteList(ts, db);
    }

    /** The tables of one list, in order; the first error stops the loop. */
    method WriteList(ts: Tables, db: string -> DbReply) returns (err: Option<PgError>)
      requires ts.Valid()
      modifies this`stats, this`log
      ensures err == ListError(ts)
      ensures stats == StatsAfter(old(stats), ts.keys[..FirstFailing(ts)], db)
      ensures log == old(log) + ListSql(schema, ts)
    {
      ghost var n := FirstFailing(ts);
      var i := 0;
      while i < |ts.keys|
        invariant i <= n
        invariant stats == StatsAfter(old(stats), ts.keys[..i], db)
        invariant log == old(log) + LogUpTo(schema, ts, i)
      {
        ghost var done := LogUpTo(schema, ts, i);
        var t := ts.vals[ts.keys[i]];
        err := WriteTable(ts.keys[i], t, db);
        if err.Some? {
          assert i == n;
          Assoc(old(log), done, FailedSql(schema, ts.keys[i], t));
          return;
        }
        StatsStep(old(stats), ts.keys, i, db);
        LogStep(schema, ts, i);
        Assoc(old(log), done, TableSql(schema, ts.keys[i], t));
        i := i + 1;
      }
      assert ts.keys[..|ts.keys|] == ts.keys;
      return None;
    }

    /** One table: its statements run in order, then its tally; a MERGE with an empty ON clause or
        SET list raises, after the create, the insert and the match count, and nothing is
        tallied. */
    method WriteTable(table: string, t: Table, db: string -> DbReply) returns (err: Option<PgError>)
      modifies this`stats, this`log
      ensures Mergeable(t) ==>
        && err == None
        && log == old(log) + TableSql(schema, table, t)
        && stats == Tally(old(stats), table, db(table).total, db(table).matched)
      ensures !Mergeable(t) ==>
        && err == Some(MergeFailed(table))
        && log == old(log) + FailedSql(schema, table, t)
        && stats == old(stats)
    {
      var st := BuildStatements(schema, table, t.spec.cols.keys, t.spec.pkCols.keys);
      log := log + [Exec(st.create), ExecValues(st.insert, t.records), Exec(st.matches)];
      var reply := db(table);
      log := log + [Exec(st.merge)];
      if !Mergeable(t) {
        return Some(MergeFailed(table));
      }
      log := log + [Exec(st.drop), Commit];
      stats := Tally(stats, table, reply.total, reply.matched);
      return None;
    }
  }
}
