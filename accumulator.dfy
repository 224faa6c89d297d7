/** The writer's event state machine (Writer.OFXListStart, OFXRecStart, OFXPutData, OFXRecEnd,
    __iter__ and __next__): the registry compiled from the mapping, the list being processed,
    and per table the record being filled, the records kept and their key tuples. */
module Accumulator {
  import opened Wrappers
  import opened Values
  import opened Dicts
  import opened Casts
  import opened Mapping
  import opened Compiler

  // ---------------------------------------------------------------------------------------------
  // One table

  /** The key columns of s all sit inside rec. */
  ghost predicate KeyFits(s: TableSpec, rec: Record)
  {
    s.pkCols.Valid() && forall c <- s.pkCols.vals.Keys :: s.pkCols.vals[c] < |rec|
  }

  lemma {:induction false} SpecKeyFits(s: TableSpec, rec: Record)
    requires SpecOk(s) && |rec| == |s.blankRec|
    ensures KeyFits(s, rec)
  {
    forall c <- s.pkCols.vals.Keys ensures s.pkCols.vals[c] < |rec| {
      assert c in s.cols.keys;
      var i := IndexOf(s.cols.keys, c);
      assert s.cols.vals[s.cols.keys[i]] == i;
    }
  }

  /** A well-formed table: the current record and every kept record are one slot per column, the
      key list runs parallel to the record list, holding each kept record's key tuple, and holds
      no tuple twice. */
  ghost predicate TableOk(t: Table)
  {
    && SpecOk(t.spec) && |t.current| == |t.spec.blankRec| && KeyFits(t.spec, t.current)
    && |t.records| == |t.keys| && NoDup(t.keys)
    && forall i :: 0 <= i < |t.records| ==>
         |t.records[i]| == |t.spec.blankRec| && KeyFits(t.spec, t.records[i]) && t.keys[i] == KeyOf(t.spec, t.records[i])
  }

  ghost predicate TablesOk(ts: Tables)
  {
    ts.Valid() && forall k <- ts.vals.Keys :: TableOk(ts.vals[k])
  }

  lemma {:induction false} FreshTablesOk(ts: Tables)
    requires TablesFresh(ts)
    ensures TablesOk(ts)
  {
    forall k <- ts.vals.Keys ensures TableOk(ts.vals[k]) {
      SpecKeyFits(ts.vals[k].spec, ts.vals[k].current);
    }
  }

  /** b is a with the slot p set to v and every other slot kept. */
  ghost predicate Writes(a: Record, b: Record, p: nat, v: Value)
  {
    |b| == |a| && p < |b| && b[p] == v && forall i :: 0 <= i < |a| && i != p ==> b[i] == a[i]
  }

  /** The per-table body of OFXPutData: the bare tag is looked up first, then the
      parent-qualified tag; the value is cast with the entry's type code. */
  function PutTable(env: CastEnv, t: Table, tag: string, value: string, parent: string): (r: Table)
    requires TableOk(t)
    ensures TableOk(r) && r.spec == t.spec && r.records == t.records && r.keys == t.keys
    ensures var d := t.spec.ofxDict;
      && (tag in d ==> Writes(t.current, r.current, d[tag].pos, DestFmt(env, value, d[tag].fmt)))
      && (tag !in d && parent in d ==> Writes(t.current, r.current, d[parent].pos, DestFmt(env, value, d[parent].fmt)))
      && (tag !in d && parent !in d ==> r.current == t.current)
  {
    var d := t.spec.ofxDict;
    if tag in d || parent in d then
      var e := if tag in d then d[tag] else d[parent];
      var cur := t.current[e.pos := DestFmt(env, value, e.fmt)];
      SpecKeyFits(t.spec, cur);
      t.(current := cur)
    else t
  }

  /** The per-table body of OFXRecEnd: the current record and its key tuple are kept unless that
      tuple is already kept. */
  function EndTable(t: Table): (r: Table)
    requires TableOk(t)
    ensures TableOk(r) && r.spec == t.spec && r.current == t.current
    ensures var k := KeyOf(t.spec, t.current);
      && (k in t.keys ==> r.records == t.records && r.keys == t.keys)
      && (k !in t.keys ==> r.records == t.records + [t.current] && r.keys == t.keys + [k])
  {
    var k := KeyOf(t.spec, t.current);
    if k in t.keys then t
    else
      var r := t.(records := t.records + [t.current], keys := t.keys + [k]);
      assert forall i :: 0 <= i < |t.keys| ==> r.keys[i] == t.keys[i];
      r
  }

  /** What one writer event does to one table of the current list. */
  datatype TableEvent =
    | Clear
    | Start
    | Put(env: CastEnv, tag: string, value: string, parent: string)
    | End

  function ApplyTable(ev: TableEvent, t: Table): (r: Table)
    requires TableOk(t)
    ensures TableOk(r) && r.spec == t.spec
    ensures ev.Clear? ==> r.records == [] && r.keys == [] && r.current == t.current
    ensures ev.Start? ==> && AllNull(r.current) && |r.current| == |t.spec.cols.keys|
                          && r.records == t.records && r.keys == t.keys
  {
    match ev
    case Clear => t.(records := [], keys := [])
    case Start =>
      SpecKeyFits(t.spec, t.spec.blankRec);
      t.(current := t.spec.blankRec)
    case Put(env, tag, value, parent) => PutTable(env, t, tag, value, parent)
    case End => EndTable(t)
  }

  /** Every table of a list, after the event. */
  function AllTables(ev: TableEvent, ts: Tables): (r: Tables)
    requires TablesOk(ts)
    ensures TablesOk(r) && r.keys == ts.keys && r.vals.Keys == ts.vals.Keys
    ensures forall k <- ts.vals.Keys :: r.vals[k] == ApplyTable(ev, ts.vals[k])
  {
    Dict(ts.keys, map k | k in ts.vals :: ApplyTable(ev, ts.vals[k]))
  }

  /** The `for EachTable in self.curOFXList` loop shared by the four events. */
  method ForEachTable(ev: TableEvent, ts: Tables) returns (r: Tables)
    requires TablesOk(ts)
    ensures r == AllTables(ev, ts)
  {
    ghost var all := AllTables(ev, ts).vals;
    var acc := ts.vals;
    assert acc == Overlay(ts.vals, all, ts.keys, 0);
    for i := 0 to |ts.keys|
      invariant acc == Overlay(ts.vals, all, ts.keys, i)
    {
      var k := ts.keys[i];
      OverlayStep(ts.vals, all, ts.keys, i);
      assert TableOk(ts.vals[k]);
      var t := ApplyTable(ev, ts.vals[k]);
      assert t == all[k];
      acc := acc[k := t];
    }
    OverlayAll(ts.vals, all, ts.keys);
    r := Dict(ts.keys, acc);
  }

  // ---------------------------------------------------------------------------------------------
  // Key tuples: one table over a list occurrence

  /** The key tuples of the records the current buffer held at each RecEnd. */
  function BufKeys(s: TableSpec, bufs: seq<Record>): (ks: seq<seq<Value>>)
    requires SpecOk(s) && forall i :: 0 <= i < |bufs| ==> |bufs[i]| == |s.blankRec|
    ensures |ks| == |bufs| && forall i :: 0 <= i < |bufs| ==> ks[i] == KeyOf(s, bufs[i])
    decreases |bufs|
  {
    if bufs == [] then []
    else
      SpecKeyFits(s, bufs[|bufs| - 1]);
      BufKeys(s, bufs[..|bufs| - 1]) + [KeyOf(s, bufs[|bufs| - 1])]
  }

  /** The table after RecEnd with each of bufs in turn as the current record. */
  function EndAll(t: Table, bufs: seq<Record>): (r: Table)
    requires TableOk(t) && forall i :: 0 <= i < |bufs| ==> |bufs[i]| == |t.spec.blankRec|
    ensures TableOk(r) && r.spec == t.spec
    decreases |bufs|
  {
    if bufs == [] then t
    else
      var p := EndAll(t, bufs[..|bufs| - 1]);
      SpecKeyFits(p.spec, bufs[|bufs| - 1]);
      EndTable(p.(current := bufs[|bufs| - 1]))
  }

  /** Within one occurrence of a list (records cleared at its start), a table keeps one record per
      distinct key tuple, in order of first appearance, and the record kept for a tuple is the
      first record that had it: a later duplicate is dropped, not merged. */
  lemma {:induction false} FirstRecordWins(t: Table, bufs: seq<Record>)
    requires TableOk(t) && t.records == [] && t.keys == []
    requires forall i :: 0 <= i < |bufs| ==> |bufs[i]| == |t.spec.blankRec|
    ensures var r := EndAll(t, bufs); var ks := BufKeys(t.spec, bufs);
      && r.keys == Distinct(ks) && |r.records| == |r.keys|
      && forall i :: 0 <= i < |r.keys| ==> r.keys[i] in ks && r.records[i] == bufs[IndexOf(ks, r.keys[i])]
    decreases |bufs|
  {
    EndAllKeepsFirst(t, bufs);
    KeepFirstSpec(BufKeys(t.spec, bufs), bufs);
  }

  /** The first record of each key tuple, in order of first appearance. */
  function KeepFirst<K(==), R>(ks: seq<K>, bs: seq<R>): (seq<K>, seq<R>)
    requires |ks| == |bs|
    decreases |ks|
  {
    if ks == [] then ([], [])
    else
      var n := |ks| - 1;
      var (pk, pr) := KeepFirst(ks[..n], bs[..n]);
      if ks[n] in pk then (pk, pr) else (pk + [ks[n]], pr + [bs[n]])
  }

  /** KeepFirst keeps the distinct tuples in order of first appearance, each with the record that
      first had it. */
  lemma {:induction false} KeepFirstSpec<K, R>(ks: seq<K>, bs: seq<R>)
    requires |ks| == |bs|
    ensures var (pk, pr) := KeepFirst(ks, bs);
      && pk == Distinct(ks) && |pr| == |pk|
      && forall i :: 0 <= i < |pk| ==> pk[i] in ks && pr[i] == bs[IndexOf(ks, pk[i])]
    decreases |ks|
  {
    if ks != [] {
      var n := |ks| - 1;
      var kp, pre := ks[..n], bs[..n];
      assert ks == kp + [ks[n]] && bs == pre + [bs[n]];
      KeepFirstSpec(kp, pre);
      var (pk, pr) := KeepFirst(kp, pre);
      KeepFirstStep(kp, ks[n], pre, bs[n], pk, pr);
    }
  }

  /** Within one list occurrence, the table's records and key tuples are KeepFirst of the
      buffers and their tuples. */
  lemma {:induction false} EndAllKeepsFirst(t: Table, bufs: seq<Record>)
    requires TableOk(t) && t.records == [] && t.keys == []
    requires forall i :: 0 <= i < |bufs| ==> |bufs[i]| == |t.spec.blankRec|
    ensures (EndAll(t, bufs).keys, EndAll(t, bufs).records) == KeepFirst(BufKeys(t.spec, bufs), bufs)
    decreases |bufs|
  {
    if bufs != [] {
      var n := |bufs| - 1;
      var pre, b := bufs[..n], bufs[n];
      assert bufs == pre + [b];
      EndAllKeepsFirst(t, pre);
      SpecKeyFits(t.spec, b);
      var k := KeyOf(t.spec, b);
      BufKeysStep(t.spec, pre, b, k);
      EndAllStep(t, pre, b, k);
      var ks := BufKeys(t.spec, bufs);
      assert ks[..n] == BufKeys(t.spec, pre) && ks[n] == k;
    }
  }

  lemma {:induction false} BufKeysStep(s: TableSpec, pre: seq<Record>, b: Record, k: seq<Value>)
    requires SpecOk(s) && (forall i :: 0 <= i < |pre| ==> |pre[i]| == |s.blankRec|) && |b| == |s.blankRec|
    requires KeyFits(s, b) && k == KeyOf(s, b)
    ensures BufKeys(s, pre + [b]) == BufKeys(s, pre) + [k]
  {
    assert (pre + [b])[..|pre|] == pre;
  }

  /** RecEnd with one more record b, whose key tuple is k: kept exactly when k is new. */
  lemma {:induction false} EndAllStep(t: Table, pre: seq<Record>, b: Record, k: seq<Value>)
    requires TableOk(t) && (forall i :: 0 <= i < |pre| ==> |pre[i]| == |t.spec.blankRec|) && |b| == |t.spec.blankRec|
    requires KeyFits(t.spec, b) && k == KeyOf(t.spec, b)
    ensures var p := EndAll(t, pre); var r := EndAll(t, pre + [b]);
      && r.keys == (if k in p.keys then p.keys else p.keys + [k])
      && r.records == (if k in p.keys then p.records else p.records + [b])
  {
    assert (pre + [b])[..|pre|] == pre;
  }

  /** One more record with key tuple k: kept, and its tuple appended, exactly when k is new. */
  lemma {:induction false} KeepFirstStep<K, R>(kp: seq<K>, k: K, pre: seq<R>, b: R, pk: seq<K>, pr: seq<R>)
    requires |pre| == |kp| && pk == Distinct(kp) && |pr| == |pk|
    requires forall i :: 0 <= i < |pk| ==> pk[i] in kp && pr[i] == pre[IndexOf(kp, pk[i])]
    ensures var rk := if k in pk then pk else pk + [k];
      var rr := if k in pk then pr else pr + [b];
      && rk == Distinct(kp + [k]) && |rr| == |rk|
      && forall i :: 0 <= i < |rk| ==> rk[i] in kp + [k] && rr[i] == (pre + [b])[IndexOf(kp + [k], rk[i])]
  {
    var ks, bs, n := kp + [k], pre + [b], |kp|;
    assert ks[..n] == kp;
    assert k in pk <==> k in kp by { DistinctSpec(kp); }
    forall i | 0 <= i < |pk| ensures pk[i] in ks && pr[i] == bs[IndexOf(ks, pk[i])] {
      IndexOfPrefix(ks, n, pk[i]);
      assert bs[IndexOf(kp, pk[i])] == pre[IndexOf(kp, pk[i])];
    }
    if k !in pk {
      assert IndexOf(ks, k) == n;
    }
  }

  /** A table without key columns has the empty tuple for every record, so it keeps at most one
      record per list occurrence. */
  lemma {:induction false} NoKeyAtMostOne(t: Table)
    requires TableOk(t) && t.spec.pkCols.keys == []
    ensures |t.records| <= 1
  {
    if |t.keys| >= 2 {
      NoDupPair(t.keys);
    }
  }

  // ---------------------------------------------------------------------------------------------
  // Table specifications and missing values

  /** The specifications of a list's tables. */
  function TableSpecs(ts: Tables): map<string, TableSpec>
  {
    map k | k in ts.vals :: ts.vals[k].spec
  }

  /** Lists whose tables have the same specifications have the same specification map. */
  lemma SpecsAgree(a: Tables, b: Tables)
    requires a.vals.Keys == b.vals.Keys && forall k <- a.vals.Keys :: a.vals[k].spec == b.vals[k].spec
    ensures TableSpecs(a) == TableSpecs(b)
  {
  }

  /** The specifications of every list: the part of the registry that no event changes. */
  function Specs(reg: Registry): map<string, map<string, TableSpec>>
  {
    map l | l in reg.vals :: TableSpecs(reg.vals[l])
  }

  /** The tag map sends the tag, or failing that the qualified tag, to one of the cast type codes. */
  predicate CastsNone(d: map<string, Entry>, tag: string, parent: string)
  {
    if tag in d then d[tag].fmt in CastCodes else parent in d && d[parent].fmt in CastCodes
  }

  /** OFXPutData with the value None raises when some table of the list would cast it. */
  predicate PutRaises(specs: map<string, TableSpec>, tag: string, parent: string)
  {
    exists k :: k in specs && CastsNone(specs[k].ofxDict, tag, parent)
  }

  /** A missing value (None), put as the empty string. */
  function TextOf(v: Option<string>): string
  {
    if v.Some? then v.value else ""
  }

  /** When a put does not raise, its text does not matter. Every table that takes the value casts
      it with a code outside the cast type codes, which gives None whatever the text. So None can
      stand as "" for a put that does not raise. */
  lemma {:induction false} PutTextIrrelevant(env: CastEnv, ts: Tables, tag: string, parent: string, x: string, y: string)
    requires TablesOk(ts) && !PutRaises(TableSpecs(ts), tag, parent)
    ensures var a, b := AllTables(Put(env, tag, x, parent), ts), AllTables(Put(env, tag, y, parent), ts);
      a.keys == b.keys && a.vals.Keys == b.vals.Keys && forall k <- a.vals.Keys :: a.vals[k] == b.vals[k]
  {
    var ex, ey := Put(env, tag, x, parent), Put(env, tag, y, parent);
    forall k | k in ts.vals ensures ApplyTable(ex, ts.vals[k]) == ApplyTable(ey, ts.vals[k]) {
      NoCastInTable(ts, k, tag, parent);
      PutTableText(env, ts.vals[k], tag, parent, x, y);
    }
  }

  lemma NoCastInTable(ts: Tables, k: string, tag: string, parent: string)
    requires k in ts.vals && !PutRaises(TableSpecs(ts), tag, parent)
    ensures !CastsNone(ts.vals[k].spec.ofxDict, tag, parent)
  {
    assert TableSpecs(ts)[k] == ts.vals[k].spec;
  }

  /** One table: a put that this table does not cast gives the same table whatever the text. */
  lemma PutTableText(env: CastEnv, t: Table, tag: string, parent: string, x: string, y: string)
    requires TableOk(t) && !CastsNone(t.spec.ofxDict, tag, parent)
    ensures PutTable(env, t, tag, x, parent) == PutTable(env, t, tag, y, parent)
  {
    var d := t.spec.ofxDict;
    if tag in d || parent in d {
      var e := if tag in d then d[tag] else d[parent];
      assert DestFmt(env, x, e.fmt) == Null == DestFmt(env, y, e.fmt);
    }
  }

  // ---------------------------------------------------------------------------------------------
  // The writer's state

  /** The registry and the key of the list curOFXList refers to (curOFXList is the registry's own
      dict for that list, so events on it change the registry). */
  datatype WState = WState(lists: Registry, cur: Option<string>)

  ghost predicate StateOk(s: WState)
  {
    && s.lists.Valid() && (forall l <- s.lists.vals.Keys :: TablesOk(s.lists.vals[l]))
    && (s.cur.Some? ==> s.cur.value in s.lists.vals)
  }

  /** The specifications of the tables of the current list; none when there is no current list. */
  function CurSpecs(s: WState): map<string, TableSpec>
    requires StateOk(s)
  {
    if s.cur.Some? then Specs(s.lists)[s.cur.value] else map[]
  }

  datatype Event =
    | ListStart(list: string)
    | RecStart
    | PutData(env: CastEnv, tag: string, value: string, parent: string)
    | RecEnd
    | ListEnd

  /** The registry with the current list's tables after ev. */
  function OnCurrent(s: WState, ev: TableEvent): (r: WState)
    requires StateOk(s) && s.cur.Some?
    ensures StateOk(r) && r.cur == s.cur && r.lists.keys == s.lists.keys && r.lists.vals.Keys == s.lists.vals.Keys
    ensures forall l <- s.lists.vals.Keys :: l != s.cur.value ==> r.lists.vals[l] == s.lists.vals[l]
    ensures r.lists.vals[s.cur.value] == AllTables(ev, s.lists.vals[s.cur.value])
  {
    var l := s.cur.value;
    WState(Dict(s.lists.keys, s.lists.vals[l := AllTables(ev, s.lists.vals[l])]), s.cur)
  }

  /** One writer event. A list missing from the registry leaves curOFXList None, and then the
      record events change nothing; the base writer's OFXListEnd does nothing. */
  function Apply(s: WState, ev: Event): (r: WState)
    requires StateOk(s)
    ensures StateOk(r) && r.lists.keys == s.lists.keys && r.lists.vals.Keys == s.lists.vals.Keys
    ensures ev.ListStart? && ev.list in s.lists.vals ==> r.cur == Some(ev.list)
    ensures ev.ListStart? && ev.list !in s.lists.vals ==> r == WState(s.lists, None)
    ensures !ev.ListStart? ==> r.cur == s.cur
    ensures !ev.ListStart? && s.cur.None? ==> r == s
    ensures ev.ListEnd? ==> r == s
  {
    match ev
    case ListStart(l) => if l in s.lists.vals then OnCurrent(WState(s.lists, Some(l)), Clear) else WState(s.lists, None)
    case ListEnd => s
    case RecStart => if s.cur.None? then s else OnCurrent(s, Start)
    case PutData(env, tag, value, parent) => if s.cur.None? then s else OnCurrent(s, Put(env, tag, value, parent))
    case RecEnd => if s.cur.None? then s else OnCurrent(s, End)
  }

  /** OFXListStart on a registered list makes it current and clears the records and key tuples
      of each of its tables, leaving the other lists as they were. */
  lemma {:induction false} ApplyListStart(s: WState, l: string)
    requires StateOk(s) && l in s.lists.vals
    ensures var r := Apply(s, ListStart(l));
      && r.cur == Some(l) && r.lists.keys == s.lists.keys && r.lists.vals.Keys == s.lists.vals.Keys
      && (forall u <- s.lists.vals.Keys :: u != l ==> r.lists.vals[u] == s.lists.vals[u])
      && r.lists.vals[l].keys == s.lists.vals[l].keys
      && forall k <- r.lists.vals[l].vals.Keys :: r.lists.vals[l].vals[k].records == [] && r.lists.vals[l].vals[k].keys == []
  {
  }

  function ApplyAll(s: WState, evs: seq<Event>): (r: WState)
    requires StateOk(s)
    ensures StateOk(r)
    decreases |evs|
  {
    if evs == [] then s else Apply(ApplyAll(s, evs[..|evs| - 1]), evs[|evs| - 1])
  }

  lemma {:induction false} ApplyAllAppend(s: WState, a: seq<Event>, b: seq<Event>)
    requires StateOk(s)
    ensures ApplyAll(s, a + b) == ApplyAll(ApplyAll(s, a), b)
    decreases |b|
  {
    if b == [] {
      assert a + b == a;
    } else {
      var n := |b| - 1;
      var pre, e := b[..n], b[n];
      assert b == pre + [e];
      assert a + b == (a + pre) + [e];
      var s1 := ApplyAll(s, a);
      calc {
        ApplyAll(s, a + b);
        ApplyAll(s, (a + pre) + [e]);
        { ApplyAllSnoc(s, a + pre, e); }
        Apply(ApplyAll(s, a + pre), e);
        { ApplyAllAppend(s, a, pre); }
        Apply(ApplyAll(s1, pre), e);
        { ApplyAllSnoc(s1, pre, e); }
        ApplyAll(s1, pre + [e]);
      }
    }
  }

  lemma {:induction false} ApplyAllSnoc(s: WState, a: seq<Event>, e: Event)
    requires StateOk(s)
    ensures ApplyAll(s, a + [e]) == Apply(ApplyAll(s, a), e)
  {
    assert (a + [e])[..|a|] == a;
  }

  /** No event changes a table's specification, and events other than ListStart keep the
      current list. */
  lemma {:induction false} ApplySpecs(s: WState, ev: Event)
    requires StateOk(s)
    ensures Specs(Apply(s, ev).lists) == Specs(s.lists)
    ensures !ev.ListStart? ==> CurSpecs(Apply(s, ev)) == CurSpecs(s)
  {
    match ev
    case ListStart(l) =>
      if l in s.lists.vals { OnCurrentSpecs(WState(s.lists, Some(l)), Clear); }
    case RecStart =>
      if s.cur.Some? { OnCurrentSpecs(s, Start); }
    case PutData(env, tag, value, parent) =>
      if s.cur.Some? { OnCurrentSpecs(s, Put(env, tag, value, parent)); }
    case RecEnd =>
      if s.cur.Some? { OnCurrentSpecs(s, End); }
    case ListEnd =>
  }

  lemma {:induction false} OnCurrentSpecs(s: WState, ev: TableEvent)
    requires StateOk(s) && s.cur.Some?
    ensures Specs(OnCurrent(s, ev).lists) == Specs(s.lists)
  {
    var l := s.cur.value;
    SpecsAgree(AllTables(ev, s.lists.vals[l]), s.lists.vals[l]);
    RegistrySpecs(OnCurrent(s, ev).lists, s.lists);
  }

  /** Registries whose lists have the same table specifications have the same specifications. */
  lemma RegistrySpecs(a: Registry, b: Registry)
    requires a.vals.Keys == b.vals.Keys && forall l <- a.vals.Keys :: TableSpecs(a.vals[l]) == TableSpecs(b.vals[l])
    ensures Specs(a) == Specs(b)
  {
  }

  lemma {:induction false} ApplyAllSpecs(s: WState, evs: seq<Event>)
    requires StateOk(s)
    ensures Specs(ApplyAll(s, evs).lists) == Specs(s.lists)
    decreases |evs|
  {
    if evs != [] {
      ApplyAllSpecs(s, evs[..|evs| - 1]);
      ApplySpecs(ApplyAll(s, evs[..|evs| - 1]), evs[|evs| - 1]);
    }
  }

  /** No event registers or drops a list. */
  lemma {:induction false} EventsKeepRegistry(s: WState, evs: seq<Event>)
    requires StateOk(s)
    ensures ApplyAll(s, evs).lists.keys == s.lists.keys && ApplyAll(s, evs).lists.vals.Keys == s.lists.vals.Keys
    decreases |evs|
  {
    if evs != [] {
      EventsKeepRegistry(s, evs[..|evs| - 1]);
    }
  }

  /** Record events never change which lists are registered or which list is current. */
  lemma {:induction false} RecordEventsKeepLists(s: WState, evs: seq<Event>)
    requires StateOk(s)
    requires forall i :: 0 <= i < |evs| ==> !evs[i].ListStart?
    ensures ApplyAll(s, evs).cur == s.cur && ApplyAll(s, evs).lists.keys == s.lists.keys
    ensures ApplyAll(s, evs).lists.vals.Keys == s.lists.vals.Keys
    ensures s.cur.None? ==> ApplyAll(s, evs) == s
    decreases |evs|
  {
    if evs != [] {
      RecordEventsKeepLists(s, evs[..|evs| - 1]);
    }
  }

  // ---------------------------------------------------------------------------------------------
  // The writer object

  class Writer {
    var lists: Registry
    var cur: Option<string>
    var order: seq<string>

    ghost predicate Valid()
      reads this
    {
      StateOk(WState(lists, cur))
    }

    function State(): WState
      reads this
    {
      WState(lists, cur)
    }

    constructor (reg: Registry)
      requires StateOk(WState(reg, None))
      ensures lists == reg && cur == None && order == [] && Valid()
    {
      lists := reg;
      cur := None;
      order := [];
    }

    /** The shared body of RecStart, PutData and RecEnd. */
    method OnEach(ev: TableEvent)
      requires Valid() && cur.Some?
      modifies this
      ensures Valid() && State() == OnCurrent(old(State()), ev) && order == old(order)
    {
      var l := cur.value;
      var ts := ForEachTable(ev, lists.vals[l]);
      lists := Dict(lists.keys, lists.vals[l := ts]);
    }

    /** OFXListStart: returns curOFXList. */
    method ListStart(l: string) returns (r: Option<Tables>)
      requires Valid()
      modifies this
      ensures Valid() && State() == Apply(old(State()), Event.ListStart(l)) && order == old(order)
      ensures r == if cur.Some? then Some(lists.vals[l]) else None
    {
      if l in lists.vals {
        cur := Some(l);
        OnEach(Clear);
        r := Some(lists.vals[l]);
      } else {
        cur := None;
        r := None;
      }
    }

    /** OFXRecStart. */
    method RecStart()
      requires Valid()
      modifies this
      ensures Valid() && State() == Apply(old(State()), Event.RecStart) && order == old(order)
    {
      if cur.Some? {
        OnEach(Start);
      }
    }

    /** OFXPutData: the cast runs with the library calls env. */
    method PutData(env: CastEnv, tag: string, value: string, parent: string)
      requires Valid()
      modifies this
      ensures Valid() && State() == Apply(old(State()), Event.PutData(env, tag, value, parent)) && order == old(order)
    {
      if cur.Some? {
        OnEach(Put(env, tag, value, parent));
      }
    }

    /** OFXPutData with a value that may be missing (the text of an element without text). Casting
        None with a cast type code raises. The call then reports false, and the program stops
        there. Otherwise None is put as "", which every table that takes it casts to None. */
    method PutValue(env: CastEnv, tag: string, value: Option<string>, parent: string) returns (ok: bool)
      requires Valid()
      modifies this
      ensures Valid() && order == old(order)
      ensures ok <==> !(value.None? && PutRaises(CurSpecs(old(State())), tag, parent))
      ensures ok ==> State() == Apply(old(State()), Event.PutData(env, tag, TextOf(value), parent))
      ensures !ok ==> State() == old(State())
      ensures CurSpecs(State()) == CurSpecs(old(State()))
    {
      if value.None? && PutRaises(CurSpecs(State()), tag, parent) {
        return false;
      }
      ApplySpecs(State(), Event.PutData(env, tag, TextOf(value), parent));
      PutData(env, tag, TextOf(value), parent);
      return true;
    }

    /** OFXRecEnd. */
    method RecEnd()
      requires Valid()
      modifies this
      ensures Valid() && State() == Apply(old(State()), Event.RecEnd) && order == old(order)
    {
      if cur.Some? {
        OnEach(End);
      }
    }

    /** OFXListEnd: the base writer does nothing; the output writers write the current list here. */
    method ListEnd()
      requires Valid()
      ensures State() == Apply(State(), Event.ListEnd)
    {
    }

    /** __iter__: the lists to process, in registry order. */
    method Iter()
      modifies this
      ensures order == lists.keys && lists == old(lists) && cur == old(cur)
    {
      order := lists.keys;
    }

    /** __next__: the next list, or StopIteration (None). */
    method Next() returns (r: Option<string>)
      modifies this
      ensures lists == old(lists) && cur == old(cur)
      ensures old(order) == [] ==> r == None && order == []
      ensures old(order) != [] ==> r == Some(old(order)[0]) && order == old(order)[1..]
    {
      if |order| > 0 {
        r := Some(order[0]);
        order := order[1..];
      } else {
        r := None;
      }
    }
  }

  // ---------------------------------------------------------------------------------------------
  // Writer.__init__

  function PrependRecs(acc: seq<MapRecord>, r: Result<seq<MapRecord>, MapError>): Result<seq<MapRecord>, MapError>
  {
    match r
    case Err(e) => Err(e)
    case Ok(x) => Ok(acc + x)
  }

  /** Handing out the head record moves it from the stream still to come to the records done. */
  lemma {:induction false} RecordsPop(cfg: Config, ml: seq<Row>, done: seq<MapRecord>)
    requires RowsIn(cfg, ml) && |ml| > 0
    ensures RowsIn(cfg, ml[1..])
    ensures RecordAt(cfg, ml).Ok? ==>
      PrependRecs(done, Records(cfg, ml)) == PrependRecs(done + [RecordAt(cfg, ml).value], Records(cfg, ml[1..]))
    ensures RecordAt(cfg, ml).Err? ==> PrependRecs(done, Records(cfg, ml)) == Err(RecordAt(cfg, ml).error)
  {
    RowsInSuffix(cfg, ml, 1);
    if RecordAt(cfg, ml).Ok? {
      var rec := RecordAt(cfg, ml).value;
      match Records(cfg, ml[1..])
      case Err(e) =>
      case Ok(rest) => assert (done + [rec]) + rest == done + ([rec] + rest);
    }
  }

  lemma {:induction false} FoldSnoc(b: Build, done: seq<MapRecord>, rec: MapRecord, inThisFile: seq<string>)
    requires BuildOk(b)
    ensures Fold(b, done + [rec], inThisFile) == Step(Fold(b, done, inThisFile), rec, inThisFile)
  {
    assert (done + [rec])[..|done|] == done;
  }

  /** Writer(plist) with the mapping read from the configuration file: the registry is the
      compilation of every record the mapping source hands out, or the configuration error the
      source raises. */
  method NewWriter(cfg: Config, inThisFile: seq<string>) returns (r: Result<Writer, MapError>)
    requires cfg.Valid()
    ensures Rows(cfg).Err? ==> r.Err? && r.error == Rows(cfg).error
    ensures Rows(cfg).Ok? ==> RowsIn(cfg, Rows(cfg).value)
    ensures Rows(cfg).Ok? && RowsIn(cfg, Rows(cfg).value) ==>
      var recs := Records(cfg, Rows(cfg).value);
      && (recs.Err? ==> r.Err? && r.error == recs.error)
      && (recs.Ok? ==> r.Ok? && fresh(r.value) && r.value.Valid() && r.value.cur == None
                       && r.value.lists == Compile(recs.value, inThisFile))
  {
    var src := new MappingSource(cfg);
    var err := src.Iter();
    if err.Some? {
      return Err(err.value);
    }
    ghost var rows := src.maplist;
    ghost var all := Records(cfg, rows);
    var b := Init();
    ghost var done: seq<MapRecord> := [];
    assert PrependRecs([], all) == all by {
      match all
      case Err(e) =>
      case Ok(x) => assert [] + x == x;
    }
    while true
      invariant src.Valid() && src.cfg == cfg
      invariant BuildOk(b) && b == Fold(Init(), done, inThisFile)
      invariant all == PrependRecs(done, Records(cfg, src.maplist))
      decreases |src.maplist|
    {
      ghost var ml := src.maplist;
      var n := src.Next();
      if n.None? {
        assert all == Ok(done + []);
        assert done + [] == done;
        break;
      }
      RecordsPop(cfg, ml, done);
      if n.value.Err? {
        return Err(n.value.error);
      }
      var rec := n.value.value;
      FoldSnoc(Init(), done, rec, inThisFile);
      b := Step(b, rec, inThisFile);
      done := done + [rec];
    }
    FreshTablesFor(b.lists);
    var w := new Writer(b.lists);
    return Ok(w);
  }

  lemma {:induction false} FreshTablesFor(reg: Registry)
    requires reg.Valid() && forall l <- reg.vals.Keys :: TablesFresh(reg.vals[l])
    ensures StateOk(WState(reg, None))
  {
    forall l <- reg.vals.Keys ensures TablesOk(reg.vals[l]) {
      FreshTablesOk(reg.vals[l]);
    }
  }
}
