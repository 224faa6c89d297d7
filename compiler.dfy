/** The writer's registry and the mapping compiler of Writer.__init__: mapping records, in the
    order the mapping source gives them, are folded into one specification per table (its
    columns and their record positions, its key columns, its tag entries and its blank record),
    tables are grouped into lists, and lists whose final word is not among the lists present in
    the file are skipped. */
module Compiler {
  import opened Wrappers
  import opened Strs
  import opened Values
  import opened Dicts
  import opened Mapping

  /** Where a tag's value goes in the record, and the type code it is cast with. */
  datatype Entry = Entry(pos: nat, fmt: string)

  /** The static mapping data of one table: column to position, key column to position, tag to
      entry, and the record of Nulls new records start from. */
  datatype TableSpec = TableSpec(cols: Dict<string, nat>, pkCols: Dict<string, nat>,
                                 ofxDict: map<string, Entry>, blankRec: Record)

  /** The four-slot list kept per table: the specification, the record being filled, the records
      kept so far and their key tuples. */
  datatype Table = Table(spec: TableSpec, current: Record, records: seq<Record>, keys: seq<seq<Value>>)

  /** The tables of one OFX list, and all lists, in insertion order. */
  type Tables = Dict<string, Table>
  type Registry = Dict<string, Tables>

  /** All Nulls, one per column. */
  ghost predicate AllNull(r: Record)
  {
    forall i :: 0 <= i < |r| ==> r[i] == Null
  }

  /** Columns sit at positions 0, 1, ... in insertion order, one Null each in the blank record;
      each key column keeps its column's position; each tag entry points inside the record. */
  ghost predicate SpecOk(s: TableSpec)
  {
    && s.cols.Valid() && s.pkCols.Valid()
    && |s.blankRec| == |s.cols.keys| && AllNull(s.blankRec)
    && (forall i :: 0 <= i < |s.cols.keys| ==> s.cols.vals[s.cols.keys[i]] == i)
    && (forall c <- s.pkCols.vals.Keys :: c in s.cols.vals && s.pkCols.vals[c] == s.cols.vals[c])
    && (forall t <- s.ofxDict.Keys :: s.ofxDict[t].pos < |s.blankRec|)
  }

  function EmptySpec(): (s: TableSpec)
    ensures SpecOk(s) && s.cols.keys == [] && s.pkCols.keys == [] && s.ofxDict == map[] && s.blankRec == []
  {
    TableSpec(Empty(), Empty(), map[], [])
  }

  /** The key tuple of a record: its values at the key columns' positions, in key-column order. */
  function KeyOf(s: TableSpec, rec: Record): (k: seq<Value>)
    requires s.pkCols.Valid() && forall c <- s.pkCols.vals.Keys :: s.pkCols.vals[c] < |rec|
    ensures |k| == |s.pkCols.keys|
    ensures forall i :: 0 <= i < |k| ==> k[i] == rec[s.pkCols.vals[s.pkCols.keys[i]]]
  {
    seq(|s.pkCols.keys|, i requires 0 <= i < |s.pkCols.keys| => rec[s.pkCols.vals[s.pkCols.keys[i]]])
  }

  // ---------------------------------------------------------------------------------------------
  // One mapping record

  /** The table being built takes in one record: its column gets the next position the first
      time it appears, its tag's entry points at that position with the record's type code,
      and a key column is noted. */
  function Absorb(o: TableSpec, rec: MapRecord): (r: TableSpec)
    requires SpecOk(o)
    ensures SpecOk(r)
  {
    var (cols, blank) :=
      if rec.column in o.cols.vals then (o.cols, o.blankRec)
      else (Put(o.cols, rec.column, |o.blankRec|), o.blankRec + [Null]);
    var pos := cols.vals[rec.column];
    var pks := if rec.isPK then Put(o.pkCols, rec.column, pos) else o.pkCols;
    var r := TableSpec(cols, pks, o.ofxDict[rec.tag := Entry(pos, rec.typcategory)], blank);
    assert forall i :: 0 <= i < |cols.keys| ==> cols.vals[cols.keys[i]] == i;
    r
  }

  /** The compiler's state: the table under construction, the tables of the list under
      construction, and the lists done. */
  datatype Build = Build(open: TableSpec, dbTables: Tables, lists: Registry)

  /** A committed table: its specification, its blank record as the current one, nothing kept. */
  ghost predicate FreshTable(t: Table)
  {
    SpecOk(t.spec) && t.current == t.spec.blankRec && t.records == [] && t.keys == []
  }

  ghost predicate TablesFresh(d: Tables)
  {
    d.Valid() && forall k <- d.vals.Keys :: FreshTable(d.vals[k])
  }

  ghost predicate BuildOk(b: Build)
  {
    SpecOk(b.open) && TablesFresh(b.dbTables) && b.lists.Valid()
    && forall l <- b.lists.vals.Keys :: TablesFresh(b.lists.vals[l])
  }

  function Init(): (b: Build)
    ensures BuildOk(b)
  {
    Build(EmptySpec(), Empty(), Empty())
  }

  /** Is the record's list present in the file? */
  predicate Kept(rec: MapRecord, inThisFile: seq<string>)
  {
    FinalWord(rec.list) in inThisFile
  }

  /** One pass of the loop body of __init__. */
  function Step(b: Build, rec: MapRecord, inThisFile: seq<string>): (r: Build)
    requires BuildOk(b)
    ensures BuildOk(r)
  {
    if !Kept(rec, inThisFile) then b
    else
      var o := Absorb(b.open, rec);
      if !rec.newtable then Build(o, b.dbTables, b.lists)
      else
        var db := Put(b.dbTables, rec.table, Table(o, o.blankRec, [], []));
        if rec.newlist then Build(EmptySpec(), Empty(), Put(b.lists, rec.list, db))
        else Build(EmptySpec(), db, b.lists)
  }

  /** The state after the records recs, from b. */
  function Fold(b: Build, recs: seq<MapRecord>, inThisFile: seq<string>): (r: Build)
    requires BuildOk(b)
    ensures BuildOk(r)
    decreases |recs|
  {
    if recs == [] then b else Step(Fold(b, recs[..|recs| - 1], inThisFile), recs[|recs| - 1], inThisFile)
  }

  /** The registry __init__ leaves in OFXListDict. */
  function Compile(recs: seq<MapRecord>, inThisFile: seq<string>): Registry
  {
    Fold(Init(), recs, inThisFile).lists
  }

  // ---------------------------------------------------------------------------------------------
  // What one table's specification holds

  /** The table under construction after taking in seg, from o. */
  function AbsorbAll(o: TableSpec, seg: seq<MapRecord>): (r: TableSpec)
    requires SpecOk(o)
    ensures SpecOk(r)
    decreases |seg|
  {
    if seg == [] then o else Absorb(AbsorbAll(o, seg[..|seg| - 1]), seg[|seg| - 1])
  }

  function Columns(seg: seq<MapRecord>): seq<string>
    decreases |seg|
  {
    if seg == [] then [] else Columns(seg[..|seg| - 1]) + [seg[|seg| - 1].column]
  }

  function PkColumns(seg: seq<MapRecord>): seq<string>
    decreases |seg|
  {
    if seg == [] then []
    else PkColumns(seg[..|seg| - 1]) + (if seg[|seg| - 1].isPK then [seg[|seg| - 1].column] else [])
  }

  function Tags(seg: seq<MapRecord>): seq<string>
    decreases |seg|
  {
    if seg == [] then [] else Tags(seg[..|seg| - 1]) + [seg[|seg| - 1].tag]
  }

  lemma {:induction false} TagsAt(seg: seq<MapRecord>, k: nat)
    requires k < |seg|
    ensures |Tags(seg)| == |seg| && Tags(seg)[k] == seg[k].tag && |Columns(seg)| == |seg| && Columns(seg)[k] == seg[k].column
    decreases |seg|
  {
    var n := |seg| - 1;
    if k < n {
      TagsAt(seg[..n], k);
    } else {
      if n > 0 { TagsAt(seg[..n], 0); }
    }
  }

  /** A column already placed keeps its position; a new one goes at the end. */
  lemma {:induction false} AbsorbPositions(o: TableSpec, rec: MapRecord)
    requires SpecOk(o)
    ensures var r := Absorb(o, rec);
      && (forall c <- o.cols.vals.Keys :: c in r.cols.vals && r.cols.vals[c] == o.cols.vals[c])
      && rec.column in r.cols.vals
      && r.cols.vals[rec.column] == if rec.column in o.cols.vals then o.cols.vals[rec.column] else |o.blankRec|
  {
  }

  lemma {:induction false} DistinctSnoc<T>(xs: seq<T>, x: T)
    ensures Distinct(xs + [x]) == if x in Distinct(xs) then Distinct(xs) else Distinct(xs) + [x]
  {
    assert (xs + [x])[..|xs|] == xs;
  }

  lemma {:induction false} AbsorbKeysStep(o: TableSpec, rec: MapRecord)
    requires SpecOk(o)
    ensures Absorb(o, rec).cols.keys == if rec.column in o.cols.keys then o.cols.keys else o.cols.keys + [rec.column]
    ensures Absorb(o, rec).pkCols.keys ==
      if rec.isPK && rec.column !in o.pkCols.keys then o.pkCols.keys + [rec.column] else o.pkCols.keys
  {
    assert rec.column in o.cols.vals <==> rec.column in o.cols.keys;
    assert rec.column in o.pkCols.vals <==> rec.column in o.pkCols.keys;
  }

  /** Columns are numbered in order of first appearance, and key columns are listed in the order
      they are first marked as keys. */
  lemma {:induction false} AbsorbAllKeys(seg: seq<MapRecord>)
    ensures AbsorbAll(EmptySpec(), seg).cols.keys == Distinct(Columns(seg))
    ensures AbsorbAll(EmptySpec(), seg).pkCols.keys == Distinct(PkColumns(seg))
    decreases |seg|
  {
    if seg != [] {
      var n := |seg| - 1;
      var pre := seg[..n];
      AbsorbAllKeys(pre);
      var o := AbsorbAll(EmptySpec(), pre);
      var rec := seg[n];
      AbsorbKeysStep(o, rec);
      assert seg[..n] == pre;
      DistinctSnoc(Columns(pre), rec.column);
      if rec.isPK {
        DistinctSnoc(PkColumns(pre), rec.column);
      } else {
        assert PkColumns(seg) == PkColumns(pre) + [] == PkColumns(pre);
      }
    }
  }

  /** Where a column sits in the record: its first-appearance rank among the table's columns. */
  lemma {:induction false} ColumnPositions(seg: seq<MapRecord>, c: string)
    ensures var s := AbsorbAll(EmptySpec(), seg);
      && (c in s.cols.vals <==> c in Distinct(Columns(seg)))
      && (c in s.cols.vals ==> c in Distinct(Columns(seg)) && s.cols.vals[c] == IndexOf(Distinct(Columns(seg)), c))
      && (c in Distinct(Columns(seg)) <==> c in Columns(seg))
  {
    var s := AbsorbAll(EmptySpec(), seg);
    AbsorbAllKeys(seg);
    DistinctSpec(Columns(seg));
    assert c in s.cols.vals <==> c in s.cols.keys;
    if c in s.cols.vals {
      var i := IndexOf(s.cols.keys, c);
      IndexOfNoDup(s.cols.keys, i);
    }
  }

  /** A tag is the last of its kind in seg from position k on. */
  ghost predicate LastWith(seg: seq<MapRecord>, k: nat)
    requires k < |seg|
  {
    forall j :: k < j < |seg| ==> seg[j].tag != seg[k].tag
  }

  lemma {:induction false} AbsorbTagStep(o: TableSpec, rec: MapRecord)
    requires SpecOk(o)
    ensures var r := Absorb(o, rec);
      && rec.column in r.cols.vals
      && r.ofxDict == o.ofxDict[rec.tag := Entry(r.cols.vals[rec.column], rec.typcategory)]
      && forall c <- o.cols.vals.Keys :: c in r.cols.vals && r.cols.vals[c] == o.cols.vals[c]
  {
  }

  lemma {:induction false} LastWithPrefix(seg: seq<MapRecord>, k: nat)
    requires k < |seg| - 1 && LastWith(seg, k)
    ensures LastWith(seg[..|seg| - 1], k) && seg[k].tag != seg[|seg| - 1].tag
  {
    var pre := seg[..|seg| - 1];
    forall j | k < j < |pre| ensures pre[j].tag != pre[k].tag { assert pre[j] == seg[j]; }
  }

  /** The tags with entries are the tags of seg. */
  lemma {:induction false} AbsorbAllTagSet(seg: seq<MapRecord>)
    ensures forall t :: t in AbsorbAll(EmptySpec(), seg).ofxDict <==> t in Tags(seg)
    decreases |seg|
  {
    if seg != [] {
      var n := |seg| - 1;
      AbsorbAllTagSet(seg[..n]);
      AbsorbTagStep(AbsorbAll(EmptySpec(), seg[..n]), seg[n]);
    }
  }

  /** Each entry comes from the last record with that tag: a later record for a tag overwrites an
      earlier one. */
  lemma {:induction false} AbsorbAllTags(seg: seq<MapRecord>)
    ensures var s := AbsorbAll(EmptySpec(), seg);
      forall k :: 0 <= k < |seg| && LastWith(seg, k) ==>
        && seg[k].column in s.cols.vals && seg[k].tag in s.ofxDict
        && s.ofxDict[seg[k].tag] == Entry(s.cols.vals[seg[k].column], seg[k].typcategory)
    decreases |seg|
  {
    forall k | 0 <= k < |seg| && LastWith(seg, k)
      ensures var s := AbsorbAll(EmptySpec(), seg);
        && seg[k].column in s.cols.vals && seg[k].tag in s.ofxDict
        && s.ofxDict[seg[k].tag] == Entry(s.cols.vals[seg[k].column], seg[k].typcategory)
    {
      AbsorbTagAt(seg, k);
    }
  }

  /** The entry of record k, the last with its tag, survives the records after it. */
  lemma {:induction false} AbsorbTagAt(seg: seq<MapRecord>, k: nat)
    requires k < |seg| && LastWith(seg, k)
    ensures var s := AbsorbAll(EmptySpec(), seg);
      && seg[k].column in s.cols.vals && seg[k].tag in s.ofxDict
      && s.ofxDict[seg[k].tag] == Entry(s.cols.vals[seg[k].column], seg[k].typcategory)
    decreases |seg|
  {
    var n := |seg| - 1;
    var pre := seg[..n];
    var o := AbsorbAll(EmptySpec(), pre);
    AbsorbTagStep(o, seg[n]);
    if k < n {
      LastWithPrefix(seg, k);
      assert pre[k] == seg[k];
      AbsorbTagAt(pre, k);
    }
  }

  // ---------------------------------------------------------------------------------------------
  // The fold over the mapping records

  function KeptOf(recs: seq<MapRecord>, inThisFile: seq<string>): seq<MapRecord>
    decreases |recs|
  {
    if recs == [] then []
    else KeptOf(recs[..|recs| - 1], inThisFile) + (if Kept(recs[|recs| - 1], inThisFile) then [recs[|recs| - 1]] else [])
  }

  /** Records of lists not present in the file are ignored: compiling only the others gives the
      same state. */
  lemma {:induction false} SkipAbsent(b: Build, recs: seq<MapRecord>, inThisFile: seq<string>)
    requires BuildOk(b)
    ensures Fold(b, recs, inThisFile) == Fold(b, KeptOf(recs, inThisFile), inThisFile)
    decreases |recs|
  {
    if recs != [] {
      var n := |recs| - 1;
      SkipAbsent(b, recs[..n], inThisFile);
      var kp := KeptOf(recs[..n], inThisFile);
      if Kept(recs[n], inThisFile) {
        assert (kp + [recs[n]])[..|kp|] == kp;
        assert KeptOf(recs, inThisFile) == kp + [recs[n]];
        assert Fold(b, kp + [recs[n]], inThisFile) == Step(Fold(b, kp, inThisFile), recs[n], inThisFile);
      } else {
        assert KeptOf(recs, inThisFile) == kp;
      }
    }
  }

  /** Only records of lists present in the file remain. */
  lemma {:induction false} KeptOfKept(recs: seq<MapRecord>, inThisFile: seq<string>)
    ensures forall k :: 0 <= k < |KeptOf(recs, inThisFile)| ==> Kept(KeptOf(recs, inThisFile)[k], inThisFile)
    decreases |recs|
  {
    if recs != [] {
      KeptOfKept(recs[..|recs| - 1], inThisFile);
    }
  }

  /** Inside a table's run of records (all present in the file, none closing the table) only the
      table under construction changes. */
  lemma {:induction false} InsideTable(b: Build, seg: seq<MapRecord>, inThisFile: seq<string>)
    requires BuildOk(b)
    requires forall k :: 0 <= k < |seg| ==> Kept(seg[k], inThisFile) && !seg[k].newtable
    ensures Fold(b, seg, inThisFile) == Build(AbsorbAll(b.open, seg), b.dbTables, b.lists)
    decreases |seg|
  {
    if seg != [] {
      InsideTable(b, seg[..|seg| - 1], inThisFile);
    }
  }

  /** A record flagged newtable commits the table it completes, under its table name, with its
      blank record current and no record kept, and starts an empty table; flagged newlist as
      well, it commits the list's tables under the list name and starts an empty list. */
  lemma {:induction false} CloseTable(b: Build, rec: MapRecord, inThisFile: seq<string>)
    requires BuildOk(b) && Kept(rec, inThisFile) && rec.newtable
    ensures var r := Step(b, rec, inThisFile); var s := Absorb(b.open, rec);
      var db := Put(b.dbTables, rec.table, Table(s, s.blankRec, [], []));
      && r.open == EmptySpec()
      && (rec.newlist ==> r.dbTables == Empty() && r.lists == Put(b.lists, rec.list, db))
      && (!rec.newlist ==> r.dbTables == db && r.lists == b.lists)
  {
  }

  /** One table's run of records, closed by its last record, commits a table whose specification
      is built from exactly those records. */
  lemma {:induction false} TableRun(b: Build, seg: seq<MapRecord>, inThisFile: seq<string>)
    requires BuildOk(b) && b.open == EmptySpec() && |seg| > 0
    requires forall k :: 0 <= k < |seg| ==> Kept(seg[k], inThisFile)
    requires forall k :: 0 <= k < |seg| - 1 ==> !seg[k].newtable
    requires seg[|seg| - 1].newtable
    ensures var r := Fold(b, seg, inThisFile); var s := AbsorbAll(EmptySpec(), seg); var rec := seg[|seg| - 1];
      var db := Put(b.dbTables, rec.table, Table(s, s.blankRec, [], []));
      && r.open == EmptySpec()
      && (rec.newlist ==> r.dbTables == Empty() && r.lists == Put(b.lists, rec.list, db))
      && (!rec.newlist ==> r.dbTables == db && r.lists == b.lists)
  {
    var n := |seg| - 1;
    InsideTable(b, seg[..n], inThisFile);
    CloseTable(Fold(b, seg[..n], inThisFile), seg[n], inThisFile);
  }
}
