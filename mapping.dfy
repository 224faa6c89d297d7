/** The mapping source read from the configuration file (MappingFromIniFile): each [Mapping] line
    names an OFX list, a database table, an OFX tag and a column; the validated lines are sorted
    and handed out one at a time, each with the flags that mark the last line of a table and of
    a list. */
module Mapping {
  import opened Wrappers
  import opened Strs
  import opened Dicts

  /** A [Table:<name>] section: its option names in file order and their values; a name written
      without a value has None. */
  type Section = Dict<string, Option<string>>

  /** The parts of the configuration the mapping reads: the option names of [Mapping], in file
      order, and the [Table:<name>] sections by table name. */
  datatype Config = Config(mapping: seq<string>, tables: map<string, Section>)
  {
    ghost predicate Valid()
    {
      forall t <- tables.Keys :: tables[t].Valid()
    }
  }

  /** The ConfigurationError cases, and the IndexError of a column definition with no item. */
  datatype MapError =
    | NoMapping
    | BadItem(items: seq<string>)
    | NoTable(items: seq<string>, table: string)
    | NoColumn(items: seq<string>, table: string, column: string)
    | NoColumnDef(table: string, column: string)
    | NoTypeCategory(table: string, column: string)

  /** A validated mapping line: list, table, tag and column, then the column's place in its
      table section and the first-appearance numbers of the list and of the table. */
  datatype Row = Row(list: string, table: string, tag: string, column: string,
                     ordinal: nat, listIdx: nat, tableIdx: nat)

  /** What the mapping source hands to the writer for one row. */
  datatype MapRecord = MapRecord(list: string, table: string, tag: string, column: string,
                                 typcategory: string, isPK: bool, ordinal: nat,
                                 newlist: bool, newtable: bool)

  // ---------------------------------------------------------------------------------------------
  // Validation of the [Mapping] lines

  /** One line: split into items, checked, and numbered against the lists and tables seen so far.
      Gives the row and the two first-appearance lists extended with its list and table. */
  function ParseItem(cfg: Config, line: string, lists: seq<string>, tables: seq<string>)
    : (r: Result<(Row, seq<string>, seq<string>), MapError>)
    ensures var it := Tokens(line);
      r.Ok? <==> |it| == 4 && it[1] in cfg.tables && it[3] in cfg.tables[it[1]].keys
    ensures var it := Tokens(line); |it| != 4 ==> r == Err(BadItem(it))
    ensures var it := Tokens(line); |it| == 4 && it[1] !in cfg.tables ==> r == Err(NoTable(it, it[1]))
    ensures var it := Tokens(line);
      |it| == 4 && it[1] in cfg.tables && it[3] !in cfg.tables[it[1]].keys ==> r == Err(NoColumn(it, it[1], it[3]))
    ensures r.Ok? ==> var it := Tokens(line); var row := r.value.0;
      && row.list == it[0] && row.table == it[1] && row.tag == it[2] && row.column == it[3]
      && row.ordinal < |cfg.tables[it[1]].keys| && cfg.tables[it[1]].keys[row.ordinal] == it[3]
      && row.listIdx < |r.value.1| && r.value.1[row.listIdx] == it[0]
      && row.tableIdx < |r.value.2| && r.value.2[row.tableIdx] == it[1]
  {
    var it := Tokens(line);
    if |it| != 4 then Err(BadItem(it))
    else if it[1] !in cfg.tables then Err(NoTable(it, it[1]))
    else if it[3] !in cfg.tables[it[1]].keys then Err(NoColumn(it, it[1], it[3]))
    else
      var ls := if it[0] in lists then lists else lists + [it[0]];
      var ts := if it[1] in tables then tables else tables + [it[1]];
      Ok((Row(it[0], it[1], it[2], it[3], IndexOf(cfg.tables[it[1]].keys, it[3]),
              IndexOf(ls, it[0]), IndexOf(ts, it[1])), ls, ts))
  }

  /** The rows of the lines m, in line order, given the lists and tables seen before m;
      the first bad line gives the error. */
  function ScanFrom(cfg: Config, m: seq<string>, lists: seq<string>, tables: seq<string>)
    : Result<seq<Row>, MapError>
    decreases |m|
  {
    if m == [] then Ok([])
    else
      match ParseItem(cfg, m[0], lists, tables)
      case Err(e) => Err(e)
      case Ok((row, ls, ts)) =>
        match ScanFrom(cfg, m[1..], ls, ts)
        case Err(e) => Err(e)
        case Ok(rows) => Ok([row] + rows)
  }

  function Prepend(acc: seq<Row>, r: Result<seq<Row>, MapError>): Result<seq<Row>, MapError>
  {
    match r
    case Ok(rows) => Ok(acc + rows)
    case Err(e) => Err(e)
  }

  /** The loop of __iter__ over the [Mapping] lines, building the unsorted row list. */
  method ScanItems(cfg: Config) returns (r: Result<seq<Row>, MapError>)
    ensures r == ScanFrom(cfg, cfg.mapping, [], [])
  {
    var raw: seq<Row> := [];
    var lists: seq<string> := [];
    var tables: seq<string> := [];
    var i := 0;
    ScanStart(cfg);
    while i < |cfg.mapping|
      invariant 0 <= i <= |cfg.mapping|
      invariant ScanFrom(cfg, cfg.mapping, [], []) == Prepend(raw, ScanFrom(cfg, cfg.mapping[i..], lists, tables))
    {
      ScanStep(cfg, cfg.mapping, i, raw, lists, tables);
      var p := ParseItem(cfg, cfg.mapping[i], lists, tables);
      if p.Err? {
        return Err(p.error);
      }
      var (row, ls, ts) := p.value;
      raw, lists, tables := raw + [row], ls, ts;
      i := i + 1;
    }
    assert cfg.mapping[i..] == [];
    assert raw + [] == raw;
    return Ok(raw);
  }

  lemma {:induction false} ScanStart(cfg: Config)
    ensures ScanFrom(cfg, cfg.mapping, [], []) == Prepend([], ScanFrom(cfg, cfg.mapping[0..], [], []))
  {
    assert cfg.mapping[0..] == cfg.mapping;
    match ScanFrom(cfg, cfg.mapping, [], []) {
      case Ok(rows) => assert [] + rows == rows;
      case Err(_) =>
    }
  }

  /** One line of the scan: a bad line ends it with its error, a good one moves its row into
      the rows kept. */
  lemma {:induction false} ScanStep(cfg: Config, m: seq<string>, i: nat, raw: seq<Row>, lists: seq<string>, tables: seq<string>)
    requires i < |m|
    ensures var p := ParseItem(cfg, m[i], lists, tables);
      && (p.Err? ==> Prepend(raw, ScanFrom(cfg, m[i..], lists, tables)) == Err(p.error))
      && (p.Ok? ==> Prepend(raw, ScanFrom(cfg, m[i..], lists, tables))
                    == Prepend(raw + [p.value.0], ScanFrom(cfg, m[i + 1..], p.value.1, p.value.2)))
  {
    assert m[i..][1..] == m[i + 1..];
    var p := ParseItem(cfg, m[i], lists, tables);
    if p.Ok? {
      var (row, ls, ts) := p.value;
      match ScanFrom(cfg, m[i + 1..], ls, ts) {
        case Ok(rows) => assert raw + ([row] + rows) == (raw + [row]) + rows;
        case Err(_) =>
      }
    }
  }

  // ---------------------------------------------------------------------------------------------
  // Error messages

  /** The ConfigurationError text of the missing-column case as the source formats it: the
      table name fills the column slot and the column name the table slot. */
  function NoColumnMessageAsWritten(items: seq<string>): string
    requires |items| == 4
  {
    "For mapping item (" + Join(items, ", ") + "): No column " + items[1] + " in table " + items[3]
  }

  /** The message text of each error, with the missing-column case naming the column first. */
  function Message(e: MapError): string
  {
    match e
    case NoMapping => "No Mapping section in .INI file"
    case BadItem(items) => "Mapping item (" + Join(items, ", ") + ") - should have 4 comma-separated items"
    case NoTable(items, table) => "For mapping item (" + Join(items, ", ") + "): No table named " + table + " in configuration"
    case NoColumn(items, table, column) => "For mapping item (" + Join(items, ", ") + "): No column " + column + " in table " + table
    case NoColumnDef(table, column) => "Table definition missing for Table:" + table + " and Column:" + column
    case NoTypeCategory(_, _) => "list index out of range"
  }

  /** A line naming table T and column c, where T has no c: the source's message reads
      "No column T in table c". */
  lemma {:induction false} NoColumnMessageSwapped()
    ensures var cfg := Config(["L, T, TAG, c"], map["T" := Dict(["d"], map["d" := Some("text")])]);
      && ParseItem(cfg, "L, T, TAG, c", [], []) == Err(NoColumn(["L", "T", "TAG", "c"], "T", "c"))
      && NoColumnMessageAsWritten(["L", "T", "TAG", "c"]) == "For mapping item (" + "L, T, TAG, c" + "): No column " + "T" + " in table " + "c"
      && Message(NoColumn(["L", "T", "TAG", "c"], "T", "c")) == "For mapping item (" + "L, T, TAG, c" + "): No column " + "c" + " in table " + "T"
  {
    ExampleParse();
    ExampleMessages();
  }

  lemma {:induction false} ExampleParse()
    ensures var cfg := Config(["L, T, TAG, c"], map["T" := Dict(["d"], map["d" := Some("text")])]);
      ParseItem(cfg, "L, T, TAG, c", [], []) == Err(NoColumn(["L", "T", "TAG", "c"], "T", "c"))
  {
    ExampleTokens();
  }

  lemma {:induction false} ExampleMessages()
    ensures NoColumnMessageAsWritten(["L", "T", "TAG", "c"]) == "For mapping item (" + "L, T, TAG, c" + "): No column " + "T" + " in table " + "c"
    ensures Message(NoColumn(["L", "T", "TAG", "c"], "T", "c")) == "For mapping item (" + "L, T, TAG, c" + "): No column " + "c" + " in table " + "T"
  {
    ExampleJoin();
  }

  lemma {:induction false} ExampleJoin()
    ensures Join(["L", "T", "TAG", "c"], ", ") == "L, T, TAG, c"
  {
    assert Join(["c"], ", ") == "c";
    assert Join(["TAG", "c"], ", ") == "TAG, c";
    assert Join(["T", "TAG", "c"], ", ") == "T, TAG, c";
  }

  lemma {:induction false} ExampleTokens()
    ensures Tokens("L, T, TAG, c") == ["L", "T", "TAG", "c"]
  {
    var xs := ["L", "T", "TAG", "c"];
    forall i | 0 <= i < |xs| ensures IsToken(xs[i]) {}
    TokensJoin(xs, ", ");
    ExampleJoin();
  }

  /** The corrected message of a missing-column error names, in this order, the column the line
      asks for and the table it looked in. */
  lemma {:induction false} NoColumnMessageNamesColumn(cfg: Config, line: string, lists: seq<string>, tables: seq<string>)
    requires ParseItem(cfg, line, lists, tables).Err? && ParseItem(cfg, line, lists, tables).error.NoColumn?
    ensures var it := Tokens(line);
      && |it| == 4 && it[1] in cfg.tables && it[3] !in cfg.tables[it[1]].keys
      && Message(ParseItem(cfg, line, lists, tables).error)
        == "For mapping item (" + Join(it, ", ") + "): No column " + it[3] + " in table " + it[1]
  {
  }

  // ---------------------------------------------------------------------------------------------
  // Well-formed rows

  /** The row's list and table are the ones its numbers point at, and its ordinal is the first
      place of its column in its table section. */
  ghost predicate RowOk(cfg: Config, row: Row, lists: seq<string>, tables: seq<string>)
  {
    && row.listIdx < |lists| && lists[row.listIdx] == row.list
    && row.tableIdx < |tables| && tables[row.tableIdx] == row.table
    && row.table in cfg.tables && row.column in cfg.tables[row.table].keys
    && row.ordinal == IndexOf(cfg.tables[row.table].keys, row.column)
  }

  ghost predicate IsPrefix(a: seq<string>, b: seq<string>) { |a| <= |b| && b[..|a|] == a }

  lemma {:induction false} ParseItemOk(cfg: Config, line: string, lists: seq<string>, tables: seq<string>)
    requires NoDup(lists) && NoDup(tables)
    requires ParseItem(cfg, line, lists, tables).Ok?
    ensures var (row, ls, ts) := ParseItem(cfg, line, lists, tables).value;
      && NoDup(ls) && NoDup(ts) && IsPrefix(lists, ls) && IsPrefix(tables, ts)
      && RowOk(cfg, row, ls, ts)
  {
    var it := Tokens(line);
    AddFirstSeen(lists, it[0]);
    AddFirstSeen(tables, it[1]);
  }

  /** A name joins the first-appearance list only when it is new, at the end. */
  lemma {:induction false} AddFirstSeen(xs: seq<string>, x: string)
    requires NoDup(xs)
    ensures var ys := if x in xs then xs else xs + [x];
      NoDup(ys) && IsPrefix(xs, ys) && x in ys
  {
    assert (xs + [x])[..|xs|] == xs;
  }

  lemma {:induction false} RowOkExtend(cfg: Config, row: Row, lists: seq<string>, tables: seq<string>,
                                       ls: seq<string>, ts: seq<string>)
    requires RowOk(cfg, row, lists, tables) && IsPrefix(lists, ls) && IsPrefix(tables, ts)
    ensures RowOk(cfg, row, ls, ts)
  {
    assert ls[row.listIdx] == ls[..|lists|][row.listIdx];
    assert ts[row.tableIdx] == ts[..|tables|][row.tableIdx];
  }

  /** Every scanned row is well formed against the final first-appearance lists, which extend
      the given ones. */
  lemma {:induction false} ScanRowsOk(cfg: Config, m: seq<string>, lists: seq<string>, tables: seq<string>)
    returns (ls: seq<string>, ts: seq<string>)
    requires NoDup(lists) && NoDup(tables)
    requires ScanFrom(cfg, m, lists, tables).Ok?
    ensures NoDup(ls) && NoDup(ts) && IsPrefix(lists, ls) && IsPrefix(tables, ts)
    ensures forall k :: 0 <= k < |ScanFrom(cfg, m, lists, tables).value| ==> RowOk(cfg, ScanFrom(cfg, m, lists, tables).value[k], ls, ts)
    decreases |m|
  {
    if m == [] {
      ls, ts := lists, tables;
      assert ls[..|lists|] == lists && ts[..|tables|] == tables;
    } else {
      ScanFromCons(cfg, m, lists, tables);
      var (row, ls1, ts1) := ParseItem(cfg, m[0], lists, tables).value;
      ParseItemOk(cfg, m[0], lists, tables);
      var rest := ScanFrom(cfg, m[1..], ls1, ts1).value;
      ls, ts := ScanRowsOk(cfg, m[1..], ls1, ts1);
      PrefixTrans(lists, ls1, ls);
      PrefixTrans(tables, ts1, ts);
      RowOkExtend(cfg, row, ls1, ts1, ls, ts);
      var all := ScanFrom(cfg, m, lists, tables).value;
      forall k | 0 <= k < |all| ensures RowOk(cfg, all[k], ls, ts) {
        if k > 0 { assert all[k] == rest[k - 1]; }
      }
    }
  }

  /** A scan that succeeds parses its first line and scans the rest. */
  lemma {:induction false} ScanFromCons(cfg: Config, m: seq<string>, lists: seq<string>, tables: seq<string>)
    requires m != [] && ScanFrom(cfg, m, lists, tables).Ok?
    ensures ParseItem(cfg, m[0], lists, tables).Ok?
    ensures var (row, ls, ts) := ParseItem(cfg, m[0], lists, tables).value;
      && ScanFrom(cfg, m[1..], ls, ts).Ok?
      && ScanFrom(cfg, m, lists, tables).value == [row] + ScanFrom(cfg, m[1..], ls, ts).value
  {
  }

  lemma {:induction false} PrefixTrans(a: seq<string>, b: seq<string>, c: seq<string>)
    requires IsPrefix(a, b) && IsPrefix(b, c)
    ensures IsPrefix(a, c)
  {
    assert c[..|a|] == c[..|b|][..|a|];
  }

  // ---------------------------------------------------------------------------------------------
  // sorted(rawMapList, key=itemgetter(5, 6, 4, 2, 3))

  /** The sort key: list number, table number, column ordinal, tag, column. */
  predicate RowLe(a: Row, b: Row)
  {
    if a.listIdx != b.listIdx then a.listIdx < b.listIdx
    else if a.tableIdx != b.tableIdx then a.tableIdx < b.tableIdx
    else if a.ordinal != b.ordinal then a.ordinal < b.ordinal
    else if a.tag != b.tag then LexLe(a.tag, b.tag)
    else LexLe(a.column, b.column)
  }

  predicate SameKey(a: Row, b: Row)
  {
    a.listIdx == b.listIdx && a.tableIdx == b.tableIdx && a.ordinal == b.ordinal && a.tag == b.tag && a.column == b.column
  }

  lemma {:induction false} RowLeTotal(a: Row, b: Row)
    ensures RowLe(a, b) || RowLe(b, a)
  {
    LexTotal(a.tag, b.tag);
    LexTotal(a.column, b.column);
  }

  lemma {:induction false} RowLeAntisym(a: Row, b: Row)
    requires RowLe(a, b) && RowLe(b, a)
    ensures SameKey(a, b)
  {
    if a.tag != b.tag {
      LexAntisym(a.tag, b.tag);
    } else {
      LexAntisym(a.column, b.column);
    }
  }

  lemma {:induction false} RowLeTrans(a: Row, b: Row, c: Row)
    requires RowLe(a, b) && RowLe(b, c)
    ensures RowLe(a, c)
  {
    if a.listIdx == b.listIdx == c.listIdx && a.tableIdx == b.tableIdx == c.tableIdx && a.ordinal == b.ordinal == c.ordinal {
      if a.tag != b.tag && b.tag != c.tag {
        LexTrans(a.tag, b.tag, c.tag);
        if a.tag == c.tag { LexAntisym(b.tag, c.tag); }
      } else if a.tag == b.tag && b.tag == c.tag {
        LexTrans(a.column, b.column, c.column);
      }
    }
  }

  ghost predicate Sorted(s: seq<Row>)
  {
    forall i, j :: 0 <= i < j < |s| ==> RowLe(s[i], s[j])
  }

  function Insert(x: Row, s: seq<Row>): (r: seq<Row>)
    ensures multiset(r) == multiset(s) + multiset{x}
  {
    if s == [] then [x]
    else if RowLe(x, s[0]) then [x] + s
    else
      assert s == [s[0]] + s[1..];
      [s[0]] + Insert(x, s[1..])
  }

  lemma {:induction false} InsertSorted(x: Row, s: seq<Row>)
    requires Sorted(s)
    ensures Sorted(Insert(x, s))
  {
    if s == [] {
    } else if RowLe(x, s[0]) {
      forall j | 0 <= j < |s| ensures RowLe(x, s[j]) {
        if j > 0 { RowLeTrans(x, s[0], s[j]); }
      }
      ConsSorted(x, s);
    } else {
      RowLeTotal(x, s[0]);
      var tl := s[1..];
      forall i, j | 0 <= i < j < |tl| ensures RowLe(tl[i], tl[j]) {
        assert tl[i] == s[i + 1] && tl[j] == s[j + 1];
      }
      InsertSorted(x, tl);
      forall j | 0 <= j < |tl| ensures RowLe(s[0], tl[j]) {
        assert tl[j] == s[j + 1];
      }
      InsertBounded(x, tl, s[0]);
      ConsSorted(s[0], Insert(x, tl));
    }
  }

  /** A row at or below every row of a sorted list can go in front of it. */
  lemma {:induction false} ConsSorted(a: Row, t: seq<Row>)
    requires Sorted(t) && forall j :: 0 <= j < |t| ==> RowLe(a, t[j])
    ensures Sorted([a] + t)
  {
    var r := [a] + t;
    forall i, j | 0 <= i < j < |r| ensures RowLe(r[i], r[j]) {
      if i == 0 { assert r[j] == t[j - 1]; } else { assert r[i] == t[i - 1] && r[j] == t[j - 1]; }
    }
  }

  /** A bound below x and below every row of s is below every row after the insertion. */
  lemma {:induction false} InsertBounded(x: Row, s: seq<Row>, a: Row)
    requires RowLe(a, x) && forall j :: 0 <= j < |s| ==> RowLe(a, s[j])
    ensures forall j :: 0 <= j < |Insert(x, s)| ==> RowLe(a, Insert(x, s)[j])
  {
    var t := Insert(x, s);
    forall j | 0 <= j < |t| ensures RowLe(a, t[j]) {
      assert t[j] in multiset(t);
      if t[j] != x {
        assert t[j] in multiset(s);
        var k :| 0 <= k < |s| && s[k] == t[j];
      }
    }
  }

  /** An insertion sort: a sorted permutation of its input. */
  function SortRows(s: seq<Row>): (r: seq<Row>)
    ensures multiset(r) == multiset(s)
  {
    if s == [] then []
    else
      assert s == [s[0]] + s[1..];
      Insert(s[0], SortRows(s[1..]))
  }

  lemma {:induction false} SortRowsSorted(s: seq<Row>)
    ensures Sorted(SortRows(s))
  {
    if s != [] {
      SortRowsSorted(s[1..]);
      InsertSorted(s[0], SortRows(s[1..]));
    }
  }

  /** Rows whose sort keys coincide are the same row. */
  ghost predicate KeysDistinguish(s: multiset<Row>)
  {
    forall a, b :: a in s && b in s && SameKey(a, b) ==> a == b
  }

  /** A sorted permutation is unique when equal keys mean equal rows, so any sort, stable or
      not, gives Python's result. */
  lemma {:induction false} SortedUnique(a: seq<Row>, b: seq<Row>)
    requires Sorted(a) && Sorted(b) && multiset(a) == multiset(b)
    requires KeysDistinguish(multiset(a))
    ensures a == b
    decreases |a|
  {
    if a != [] {
      SameHead(a, b);
      SortedTail(a);
      SortedTail(b);
      assert a == [a[0]] + a[1..] && b == [b[0]] + b[1..];
      assert multiset(a[1..]) == multiset(a) - multiset{a[0]};
      assert multiset(b[1..]) == multiset(b) - multiset{b[0]};
      assert multiset(a[1..]) <= multiset(a);
      SortedUnique(a[1..], b[1..]);
    }
  }

  lemma {:induction false} SortedTail(a: seq<Row>)
    requires Sorted(a) && a != []
    ensures Sorted(a[1..])
  {
    forall i, j | 0 <= i < j < |a[1..]| ensures RowLe(a[1..][i], a[1..][j]) {
      assert a[1..][i] == a[i + 1] && a[1..][j] == a[j + 1];
    }
  }

  /** The head of a sorted sequence is below each of its elements. */
  lemma {:induction false} HeadLeast(a: seq<Row>, x: Row)
    requires Sorted(a) && x in multiset(a)
    ensures RowLe(a[0], x)
  {
    var i :| 0 <= i < |a| && a[i] == x;
    if i == 0 {
      RowLeRefl(x);
    }
  }

  lemma {:induction false} RowLeRefl(x: Row)
    ensures RowLe(x, x)
  {
    LexRefl(x.column);
  }

  lemma {:induction false} SameHead(a: seq<Row>, b: seq<Row>)
    requires Sorted(a) && Sorted(b) && multiset(a) == multiset(b) && a != []
    requires KeysDistinguish(multiset(a))
    ensures b != [] && a[0] == b[0]
  {
    assert a[0] in multiset(a);
    assert b != [];
    assert b[0] in multiset(b);
    HeadLeast(b, a[0]);
    HeadLeast(a, b[0]);
    RowLeAntisym(a[0], b[0]);
  }

  /** Rows scanned against the same duplicate-free lists are told apart by their keys. */
  lemma {:induction false} RowOkKeys(cfg: Config, s: seq<Row>, ls: seq<string>, ts: seq<string>)
    requires NoDup(ls) && NoDup(ts)
    requires forall k :: 0 <= k < |s| ==> RowOk(cfg, s[k], ls, ts)
    ensures KeysDistinguish(multiset(s))
  {
    forall a, b | a in multiset(s) && b in multiset(s) && SameKey(a, b) ensures a == b {
      var i :| 0 <= i < |s| && s[i] == a;
      var j :| 0 <= j < |s| && s[j] == b;
      assert RowOk(cfg, s[i], ls, ts) && RowOk(cfg, s[j], ls, ts);
    }
  }

  // ---------------------------------------------------------------------------------------------
  // __iter__: the sorted rows, or the first configuration error

  function Rows(cfg: Config): Result<seq<Row>, MapError>
  {
    if |cfg.mapping| == 0 then Err(NoMapping)
    else
      match ScanFrom(cfg, cfg.mapping, [], [])
      case Err(e) => Err(e)
      case Ok(raw) => Ok(SortRows(raw))
  }

  /** The row list __iter__ builds: sorted, a permutation of the lines' rows, every row well formed
      against one pair of first-appearance lists; so rows of one list (and of one table within a
      list) are adjacent. */
  lemma {:induction false} RowsOk(cfg: Config) returns (ls: seq<string>, ts: seq<string>)
    requires Rows(cfg).Ok?
    ensures var rows := Rows(cfg).value;
      && Sorted(rows) && multiset(rows) == multiset(ScanFrom(cfg, cfg.mapping, [], []).value)
      && NoDup(ls) && NoDup(ts) && forall k :: 0 <= k < |rows| ==> RowOk(cfg, rows[k], ls, ts)
  {
    var raw := ScanFrom(cfg, cfg.mapping, [], []).value;
    ls, ts := ScanRowsOk(cfg, cfg.mapping, [], []);
    var rows := SortRows(raw);
    SortRowsSorted(raw);
    forall k | 0 <= k < |rows| ensures RowOk(cfg, rows[k], ls, ts) {
      assert rows[k] in multiset(raw);
      var j :| 0 <= j < |raw| && raw[j] == rows[k];
    }
  }

  /** An empty [Mapping] is an error; otherwise the first bad line, in file order, gives the error. */
  lemma {:induction false} RowsErrors(cfg: Config)
    ensures |cfg.mapping| == 0 ==> Rows(cfg) == Err(NoMapping)
    ensures |cfg.mapping| > 0 && ParseItem(cfg, cfg.mapping[0], [], []).Err? ==>
      Rows(cfg) == Err(ParseItem(cfg, cfg.mapping[0], [], []).error)
    ensures |cfg.mapping| > 0 && |Tokens(cfg.mapping[0])| != 4 ==> Rows(cfg) == Err(BadItem(Tokens(cfg.mapping[0])))
  {
  }

  /** Sorted well-formed rows: rows of one list lie together, and so do rows of one table within
      one list. */
  lemma {:induction false} Contiguous(cfg: Config, rows: seq<Row>, ls: seq<string>, ts: seq<string>, i: nat, j: nat, k: nat)
    requires Sorted(rows) && NoDup(ls) && NoDup(ts)
    requires forall n :: 0 <= n < |rows| ==> RowOk(cfg, rows[n], ls, ts)
    requires i <= j <= k < |rows|
    ensures rows[i].list == rows[k].list ==> rows[j].list == rows[i].list
    ensures rows[i].list == rows[k].list && rows[i].table == rows[k].table ==> rows[j].table == rows[i].table
  {
    assert RowOk(cfg, rows[i], ls, ts) && RowOk(cfg, rows[j], ls, ts) && RowOk(cfg, rows[k], ls, ts);
    if i < j { assert RowLe(rows[i], rows[j]); }
    if j < k { assert RowLe(rows[j], rows[k]); }
  }

  // ---------------------------------------------------------------------------------------------
  // __next__: one record with its boundary flags

  /** Every row's table has a section holding its column. */
  ghost predicate RowsIn(cfg: Config, ml: seq<Row>)
  {
    forall k :: 0 <= k < |ml| ==> ml[k].table in cfg.tables && ml[k].column in cfg.tables[ml[k].table].vals
  }

  /** The record for the head of the remaining rows; newtable / newlist compare it with the row
      after it. The column definition's first item is the type category, a second item "PK"
      marks a key column. */
  function RecordAt(cfg: Config, ml: seq<Row>): (r: Result<MapRecord, MapError>)
    requires |ml| > 0 && RowsIn(cfg, ml)
    ensures var d := cfg.tables[ml[0].table].vals[ml[0].column];
      r == Err(NoColumnDef(ml[0].table, ml[0].column)) <==> d.None? || d.value == ""
    ensures var d := cfg.tables[ml[0].table].vals[ml[0].column];
      r == Err(NoTypeCategory(ml[0].table, ml[0].column)) <==> d.Some? && d.value != "" && Tokens(d.value) == []
    ensures r.Ok? ==> var cd := Tokens(cfg.tables[ml[0].table].vals[ml[0].column].value);
      && |cd| > 0 && r.value.typcategory == cd[0] && (r.value.isPK <==> |cd| > 1 && cd[1] == "PK")
  {
    var r := ml[0];
    var newtable := |ml| == 1 || !(ml[0].list == ml[1].list && ml[0].table == ml[1].table);
    var newlist := |ml| == 1 || ml[0].list != ml[1].list;
    var coldefs := cfg.tables[r.table].vals[r.column];
    if coldefs.None? || coldefs.value == "" then Err(NoColumnDef(r.table, r.column))
    else
      var cd := Tokens(coldefs.value);
      if |cd| == 0 then Err(NoTypeCategory(r.table, r.column))
      else Ok(MapRecord(r.list, r.table, r.tag, r.column, cd[0], |cd| > 1 && cd[1] == "PK", r.ordinal, newlist, newtable))
  }

  /** All the records __next__ gives out for the rows ml, or the first error it raises. */
  function Records(cfg: Config, ml: seq<Row>): Result<seq<MapRecord>, MapError>
    requires RowsIn(cfg, ml)
    decreases |ml|
  {
    if ml == [] then Ok([])
    else
      match RecordAt(cfg, ml)
      case Err(e) => Err(e)
      case Ok(rec) =>
        match Records(cfg, ml[1..])
        case Err(e) => Err(e)
        case Ok(recs) => Ok([rec] + recs)
  }

  /** The flags of one record: newlist implies newtable, and the last row has both. */
  lemma {:induction false} RecordFlags(cfg: Config, ml: seq<Row>)
    requires |ml| > 0 && RowsIn(cfg, ml) && RecordAt(cfg, ml).Ok?
    ensures var rec := RecordAt(cfg, ml).value;
      && (rec.newlist ==> rec.newtable)
      && (|ml| == 1 ==> rec.newlist && rec.newtable)
      && rec.list == ml[0].list && rec.table == ml[0].table && rec.tag == ml[0].tag && rec.column == ml[0].column
      && rec.ordinal == ml[0].ordinal
  {
  }

  lemma {:induction false} RowsInSuffix(cfg: Config, ml: seq<Row>, i: nat)
    requires RowsIn(cfg, ml) && i <= |ml|
    ensures RowsIn(cfg, ml[i..])
  {
    forall k | 0 <= k < |ml[i..]| ensures ml[i..][k] == ml[k + i] {}
  }

  /** Record i of the stream is the record for the rows from i on. */
  lemma {:induction false} RecordsAt(cfg: Config, ml: seq<Row>, i: nat)
    requires RowsIn(cfg, ml) && Records(cfg, ml).Ok? && i < |ml|
    ensures |Records(cfg, ml).value| == |ml|
    ensures RowsIn(cfg, ml[i..]) && RecordAt(cfg, ml[i..]).Ok?
    ensures Records(cfg, ml).value[i] == RecordAt(cfg, ml[i..]).value
    decreases i
  {
    RecordsLength(cfg, ml);
    RowsInSuffix(cfg, ml, i);
    if i > 0 {
      RowsInSuffix(cfg, ml, 1);
      RecordsAt(cfg, ml[1..], i - 1);
      assert ml[1..][i - 1..] == ml[i..];
    }
  }

  lemma {:induction false} RecordsLength(cfg: Config, ml: seq<Row>)
    requires RowsIn(cfg, ml) && Records(cfg, ml).Ok?
    ensures |Records(cfg, ml).value| == |ml|
    decreases |ml|
  {
    if ml != [] {
      RowsInSuffix(cfg, ml, 1);
      RecordsLength(cfg, ml[1..]);
    }
  }

  /** In sorted well-formed rows, the row after i shares i's list (and table) whenever any later
      row does. */
  lemma {:induction false} NextInBlock(cfg: Config, rows: seq<Row>, ls: seq<string>, ts: seq<string>, i: nat)
    requires Sorted(rows) && NoDup(ls) && NoDup(ts)
    requires forall n :: 0 <= n < |rows| ==> RowOk(cfg, rows[n], ls, ts)
    requires i + 1 < |rows|
    ensures (exists j :: i < j < |rows| && rows[j].list == rows[i].list) ==> rows[i + 1].list == rows[i].list
    ensures (exists j :: i < j < |rows| && rows[j].list == rows[i].list && rows[j].table == rows[i].table) ==>
      rows[i + 1].list == rows[i].list && rows[i + 1].table == rows[i].table
  {
    forall j | i < j < |rows|
      ensures rows[j].list == rows[i].list ==> rows[i + 1].list == rows[i].list
      ensures rows[j].list == rows[i].list && rows[j].table == rows[i].table ==> rows[i + 1].list == rows[i].list && rows[i + 1].table == rows[i].table
    {
      Contiguous(cfg, rows, ls, ts, i, i + 1, j);
    }
  }

  /** Over the sorted rows of a configuration, a record has newlist exactly when no later row
      belongs to its list, and newtable exactly when no later row belongs to its table in its
      list: the flags close each list and each table once. */
  lemma {:induction false} FlagsCloseBlocks(cfg: Config, i: nat)
    requires Rows(cfg).Ok? && RowsIn(cfg, Rows(cfg).value)
    requires Records(cfg, Rows(cfg).value).Ok? && i < |Rows(cfg).value|
    ensures var rows := Rows(cfg).value; var recs := Records(cfg, rows).value;
      && |recs| == |rows|
      && (recs[i].newlist <==> forall j :: i < j < |rows| ==> rows[j].list != rows[i].list)
      && (recs[i].newtable <==> forall j :: i < j < |rows| ==> !(rows[j].list == rows[i].list && rows[j].table == rows[i].table))
  {
    var rows := Rows(cfg).value;
    var ls, ts := RowsOk(cfg);
    RecordsAt(cfg, rows, i);
    var t := rows[i..];
    assert t[0] == rows[i];
    if i + 1 < |rows| {
      assert t[1] == rows[i + 1];
      NextInBlock(cfg, rows, ls, ts, i);
    }
  }

  // ---------------------------------------------------------------------------------------------
  // The iterator object

  class MappingSource {
    const cfg: Config
    var maplist: seq<Row>

    ghost predicate Valid()
      reads this
    {
      RowsIn(cfg, maplist)
    }

    constructor (cfg: Config)
      ensures this.cfg == cfg && maplist == [] && Valid()
    {
      this.cfg := cfg;
      maplist := [];
    }

    /** __iter__: validates and sorts the mapping lines into maplist, or raises. */
    method Iter() returns (err: Option<MapError>)
      requires Valid() && cfg.Valid()
      modifies this
      ensures Valid()
      ensures Rows(cfg).Err? ==> err == Some(Rows(cfg).error) && maplist == old(maplist)
      ensures Rows(cfg).Ok? ==> err == None && maplist == Rows(cfg).value
    {
      if |cfg.mapping| == 0 {
        return Some(NoMapping);
      }
      var raw := ScanItems(cfg);
      if raw.Err? {
        return Some(raw.error);
      }
      maplist := SortRows(raw.value);
      var ls, ts := RowsOk(cfg);
      forall k | 0 <= k < |maplist| ensures maplist[k].table in cfg.tables && maplist[k].column in cfg.tables[maplist[k].table].vals {
        assert RowOk(cfg, maplist[k], ls, ts);
        assert cfg.tables[maplist[k].table].Valid();
      }
      return None;
    }

    /** __next__: StopIteration (None) when no row is left; otherwise the head row's record, which
        is popped, or the error raised before popping it. */
    method Next() returns (r: Option<Result<MapRecord, MapError>>)
      requires Valid()
      modifies this
      ensures Valid()
      ensures old(maplist) == [] ==> r == None && maplist == []
      ensures old(maplist) != [] ==> r == Some(RecordAt(cfg, old(maplist)))
      ensures maplist == if r.Some? && r.value.Ok? then old(maplist)[1..] else old(maplist)
    {
      if |maplist| <= 0 {
        return None;
      }
      var rec := RecordAt(cfg, maplist);
      if rec.Ok? {
        maplist := maplist[1..];
        assert forall k :: 0 <= k < |maplist| ==> maplist[k] == old(maplist)[k + 1];
      }
      return Some(rec);
    }
  }
}
