/** The main program's list loop: the lists of the universe present in the file, and, for each
    list the writer asks for, the events sent to it -- one RecStart ... RecEnd bracket per list
    entry, holding the entry's pseudo-tags, the context values and the entry's own values. */
module Driver {
  import opened Wrappers
  import opened Strs
  import opened Walker
  import opened Context
  import opened Casts
  import opened Accumulator
  import opened Mapping
  import opened Compiler

  /** The parsed document, seen through its XPath queries: find gives the first match of a path,
      iterfind all matches in document order. */
  datatype Doc = Doc(find: string -> Option<Element>, iterfind: string -> seq<Element>)

  /** `if FIStmt.find(path):` -- an element found with no children is false. */
  predicate Found(doc: Doc, path: string)
  {
    doc.find(path).Some? && |doc.find(path).value.children| > 0
  }

  // ---------------------------------------------------------------------------------------------
  // InThisFile

  /** The known lists found in the file, in their original order. */
  function Present(doc: Doc, known: seq<string>): seq<string>
    decreases |known|
  {
    if known == [] then []
    else (if Found(doc, ".//" + known[0]) then [known[0]] else []) + Present(doc, known[1..])
  }

  /** a is b with some elements left out. */
  predicate Subseq(a: seq<string>, b: seq<string>)
    decreases |b|
  {
    a == [] || (b != [] && ((a[0] == b[0] && Subseq(a[1..], b[1..])) || Subseq(a, b[1..])))
  }

  /** The filter removes exactly the lists not found and keeps the others in order. */
  lemma {:induction false} PresentSpec(doc: Doc, known: seq<string>)
    ensures forall x :: x in Present(doc, known) <==> x in known && Found(doc, ".//" + x)
    ensures Subseq(Present(doc, known), known)
    decreases |known|
  {
    if known != [] {
      PresentSpec(doc, known[1..]);
      assert known == [known[0]] + known[1..];
      var rest := Present(doc, known[1..]);
      if Found(doc, ".//" + known[0]) {
        var a := [known[0]] + rest;
        assert Present(doc, known) == a;
        assert a[0] == known[0] && a[1..] == rest;
      } else {
        assert Present(doc, known) == [] + rest == rest;
      }
    }
  }

  /** `for i in reversed(range(len(InThisFile))): if not FIStmt.find(...): InThisFile.pop(i)`. */
  method FilterInThisFile(doc: Doc, known: seq<string>) returns (inThisFile: seq<string>)
    ensures inThisFile == Present(doc, known)
  {
    inThisFile := known;
    var i := |known|;
    assert known[i..] == [];
    while i > 0
      invariant 0 <= i <= |known|
      invariant inThisFile == known[..i] + Present(doc, known[i..])
    {
      i := i - 1;
      assert known[i..] == [known[i]] + known[i + 1..];
      assert known[..i + 1] == known[..i] + [known[i]];
      assert inThisFile[i] == known[i];
      if !Found(doc, ".//" + inThisFile[i]) {
        assert inThisFile[i + 1..] == Present(doc, known[i + 1..]);
        inThisFile := inThisFile[..i] + inThisFile[i + 1..];
      }
    }
  }

  // ---------------------------------------------------------------------------------------------
  // The puts of one entry

  /** The context values' puts; a value without text is put as "", which stands for None on
      every put that does not raise (see FirstRaising). */
  function VarPuts(vars: seq<Var>): (r: seq<PutReq>)
    ensures |r| == |vars|
    ensures forall i :: 0 <= i < |vars| ==> r[i] == PutReq(vars[i].tag, TextOf(vars[i].value), vars[i].alttag)
  {
    seq(|vars|, i requires 0 <= i < |vars| => PutReq(vars[i].tag, TextOf(vars[i].value), vars[i].alttag))
  }

  /** The qualified tag of a walked element: "parent/tag", or the bare tag for the entry itself. */
  function Qualified(x: Element, q: Option<Element>): string
  {
    (if q.Some? then q.value.tag + "/" else "") + x.tag
  }

  /** The puts of the walked pairs whose element has text (not None). */
  function WalkPuts(ps: seq<Pair>): seq<PutReq>
    decreases |ps|
  {
    if ps == [] then []
    else
      var (x, q) := ps[|ps| - 1];
      WalkPuts(ps[..|ps| - 1]) + (if x.text.Some? then [PutReq(x.tag, x.text.value, Qualified(x, q))] else [])
  }

  lemma {:induction false} WalkPutsAppend(a: seq<Pair>, b: seq<Pair>)
    ensures WalkPuts(a + b) == WalkPuts(a) + WalkPuts(b)
    decreases |b|
  {
    if b == [] {
      assert a + b == a;
    } else {
      var n := |b| - 1;
      WalkPutsAppend(a, b[..n]);
      assert (a + b)[..|a + b| - 1] == a + b[..n];
      assert (a + b)[|a + b| - 1] == b[n];
    }
  }

  /** The entry's own value, when it has one, is put first under its bare tag. */
  lemma {:induction false} EntryPutFirst(entry: Element)
    requires entry.text.Some?
    ensures |WalkPuts(Pre(entry, None))| > 0 && WalkPuts(Pre(entry, None))[0] == PutReq(entry.tag, entry.text.value, entry.tag)
  {
    var ps := Pre(entry, None);
    WalkPutsAppend([ps[0]], ps[1..]);
    assert [ps[0]] + ps[1..] == ps;
    assert WalkPuts([ps[0]]) == WalkPuts([]) + [PutReq(entry.tag, entry.text.value, Qualified(entry, None))];
  }

  function Puts(env: CastEnv, ps: seq<PutReq>): (r: seq<Event>)
    ensures |r| == |ps|
    ensures forall i :: 0 <= i < |ps| ==> r[i] == PutData(env, ps[i].tag, ps[i].value, ps[i].parent)
  {
    seq(|ps|, i requires 0 <= i < |ps| => PutData(env, ps[i].tag, ps[i].value, ps[i].parent))
  }

  lemma {:induction false} PutsAppend(env: CastEnv, a: seq<PutReq>, b: seq<PutReq>)
    ensures Puts(env, a + b) == Puts(env, a) + Puts(env, b)
  {
    assert forall i :: 0 <= i < |a + b| ==> (a + b)[i] == if i < |a| then a[i] else b[i - |a|];
  }

  /** One more context value. */
  lemma {:induction false} VarPutsSnoc(vars: seq<Var>, i: nat)
    requires i < |vars|
    ensures VarPuts(vars[..i + 1]) == VarPuts(vars[..i]) + [PutReq(vars[i].tag, TextOf(vars[i].value), vars[i].alttag)]
  {
  }

  /** Putting this context value raises: it has no text, and a table of the current list casts it. */
  predicate Raises(sp: map<string, TableSpec>, v: Var)
  {
    v.value.None? && PutRaises(sp, v.tag, v.alttag)
  }

  /** The first context value from i on whose put raises, or |vars|. */
  function RaisingFrom(sp: map<string, TableSpec>, vars: seq<Var>, i: nat): (n: nat)
    requires i <= |vars|
    ensures i <= n <= |vars|
    ensures forall j :: i <= j < n ==> !Raises(sp, vars[j])
    ensures n < |vars| ==> Raises(sp, vars[n])
    decreases |vars| - i
  {
    if i == |vars| || Raises(sp, vars[i]) then i else RaisingFrom(sp, vars, i + 1)
  }

  /** The first context value whose put raises, or |vars| when none does. */
  function FirstRaising(sp: map<string, TableSpec>, vars: seq<Var>): (n: nat)
    ensures n <= |vars| && forall j :: 0 <= j < n ==> !Raises(sp, vars[j])
    ensures n < |vars| ==> Raises(sp, vars[n])
  {
    RaisingFrom(sp, vars, 0)
  }

  /** An entry's puts in order: ProcessListEntry's, then the context values, then the walk of the
      entry; None when ProcessListEntry raises. */
  function EntryPuts(entry: Element, listtag: string, vars: seq<Var>): Option<seq<PutReq>>
  {
    match ListEntryPuts(entry, listtag)
    case None => None
    case Some(ps) => Some(ps + VarPuts(vars) + WalkPuts(Pre(entry, None)))
  }

  // ---------------------------------------------------------------------------------------------
  // Traces

  /** The events sent, and whether the program is still running after them (false once
      ProcessListEntry has raised). */
  datatype Trace = Trace(evs: seq<Event>, ok: bool)

  const Done: Trace := Trace([], true)

  function Then(a: Trace, b: Trace): Trace
  {
    if a.ok then Trace(a.evs + b.evs, b.ok) else a
  }

  /** The pieces run one after the other, up to the first that stops. */
  function Chain(ts: seq<Trace>): Trace
    decreases |ts|
  {
    if ts == [] then Done else Then(Chain(ts[..|ts| - 1]), ts[|ts| - 1])
  }

  /** One more piece, after pieces that all ran to the end. */
  lemma {:induction false} ChainStep(s0: WState, ts: seq<Trace>, i: nat)
    requires StateOk(s0) && i < |ts| && Chain(ts[..i]).ok
    ensures Chain(ts[..i + 1]).ok == ts[i].ok
    ensures ApplyAll(s0, Chain(ts[..i + 1]).evs) == ApplyAll(ApplyAll(s0, Chain(ts[..i]).evs), ts[i].evs)
  {
    assert ts[..i + 1][..i] == ts[..i];
    ApplyAllAppend(s0, Chain(ts[..i]).evs, ts[i].evs);
  }

  /** Once a piece stops, the pieces after it add nothing. */
  lemma {:induction false} ChainStops(ts: seq<Trace>, n: nat)
    requires n <= |ts| && !Chain(ts[..n]).ok
    ensures Chain(ts) == Chain(ts[..n])
    decreases |ts| - n
  {
    if n < |ts| {
      assert ts[..n + 1][..n] == ts[..n];
      ChainStops(ts, n + 1);
    } else {
      assert ts[..n] == ts;
    }
  }

  /** The context values before the first that raises: one more that does not raise extends them,
      and one that raises ends them. */
  lemma FirstRaisingStep(sp: map<string, TableSpec>, vars: seq<Var>, i: nat)
    requires i <= FirstRaising(sp, vars) && i < |vars|
    ensures Raises(sp, vars[i]) ==> FirstRaising(sp, vars) == i
    ensures !Raises(sp, vars[i]) ==> i + 1 <= FirstRaising(sp, vars)
  {
  }

  /** One list entry: a RecStart ... RecEnd bracket around its puts, sp being the specifications
      of the current list's tables. The entry stops after RecStart when ProcessListEntry raises,
      and just before the first context value whose put raises. */
  function EntryTrace(env: CastEnv, sp: map<string, TableSpec>, entry: Element, listtag: string, vars: seq<Var>): (t: Trace)
    ensures |t.evs| > 0 && t.evs[0].RecStart? && forall e <- t.evs :: !e.ListStart?
    ensures t.ok <==> EntryPuts(entry, listtag, vars).Some? && FirstRaising(sp, vars) == |vars|
    ensures t.ok ==> var ps := EntryPuts(entry, listtag, vars).value;
      && |t.evs| == |ps| + 2 && t.evs[|t.evs| - 1].RecEnd?
      && forall i :: 0 < i < |t.evs| - 1 ==> t.evs[i] == PutData(env, ps[i - 1].tag, ps[i - 1].value, ps[i - 1].parent)
    ensures !t.ok ==> forall i :: 0 < i < |t.evs| ==> t.evs[i].PutData?
    ensures !t.ok ==> if ListEntryPuts(entry, listtag).None? then |t.evs| == 1
                      else |t.evs| == 1 + |ListEntryPuts(entry, listtag).value| + FirstRaising(sp, vars)
  {
    match ListEntryPuts(entry, listtag)
    case None => Trace([RecStart], false)
    case Some(lp) =>
      var n := FirstRaising(sp, vars);
      if n < |vars| then Trace([RecStart] + Puts(env, lp + VarPuts(vars[..n])), false)
      else
        assert vars[..n] == vars;
        Trace([RecStart] + Puts(env, lp + VarPuts(vars) + WalkPuts(Pre(entry, None))) + [RecEnd], true)
  }

  /** A child of a list wrapper: DTSTART and DTEND are not entries. */
  function ChildTrace(env: CastEnv, sp: map<string, TableSpec>, c: Element, listtag: string, vars: seq<Var>): Trace
  {
    if c.tag in DateTags then Done else EntryTrace(env, sp, c, listtag, vars)
  }

  function ChildPieces(env: CastEnv, sp: map<string, TableSpec>, cs: seq<Element>, listtag: string, vars: seq<Var>): (r: seq<Trace>)
    ensures |r| == |cs| && forall i :: 0 <= i < |cs| ==> r[i] == ChildTrace(env, sp, cs[i], listtag, vars)
  {
    seq(|cs|, i requires 0 <= i < |cs| => ChildTrace(env, sp, cs[i], listtag, vars))
  }

  /** `for listentry in listwrapper`. */
  function WrapperTrace(env: CastEnv, sp: map<string, TableSpec>, cs: seq<Element>, listtag: string, vars: seq<Var>): Trace
  {
    Chain(ChildPieces(env, sp, cs, listtag, vars))
  }

  /** Element.iter(tag): the elements of a walk with that tag, in order. */
  function TagIter(ps: seq<Pair>, tag: string): (r: seq<Element>)
    ensures forall x :: x in r ==> x.tag == tag
    decreases |ps|
  {
    if ps == [] then []
    else TagIter(ps[..|ps| - 1], tag) + (if ps[|ps| - 1].0.tag == tag then [ps[|ps| - 1].0] else [])
  }

  function WrapperPieces(env: CastEnv, sp: map<string, TableSpec>, ws: seq<Element>, listtag: string, vars: seq<Var>): (r: seq<Trace>)
    ensures |r| == |ws| && forall i :: 0 <= i < |ws| ==> r[i] == WrapperTrace(env, sp, ws[i].children, listtag, vars)
  {
    seq(|ws|, i requires 0 <= i < |ws| => WrapperTrace(env, sp, ws[i].children, listtag, vars))
  }

  /** One list context: its context values, then every list wrapper inside it, itself included. */
  function ContextTrace(env: CastEnv, sp: map<string, TableSpec>, ctx: Element, listtag: string, globals: seq<Var>, known: seq<string>): Trace
  {
    var vars := globals + Ctx(ctx, "", known, listtag);
    Chain(WrapperPieces(env, sp, TagIter(Pre(ctx, None), listtag), listtag, vars))
  }

  function ContextPieces(env: CastEnv, sp: map<string, TableSpec>, cts: seq<Element>, listtag: string, globals: seq<Var>, known: seq<string>): (r: seq<Trace>)
    ensures |r| == |cts| && forall i :: 0 <= i < |cts| ==> r[i] == ContextTrace(env, sp, cts[i], listtag, globals, known)
  {
    seq(|cts|, i requires 0 <= i < |cts| => ContextTrace(env, sp, cts[i], listtag, globals, known))
  }

  /** The specifications of the tables of list l, in the specifications of every list. */
  function ListSpecs(specs: map<string, map<string, TableSpec>>, l: string): map<string, TableSpec>
  {
    if l in specs then specs[l] else map[]
  }

  /** After ListStart(l), the current tables are those of l. */
  lemma {:induction false} ListStartSpecs(s: WState, l: string)
    requires StateOk(s)
    ensures CurSpecs(Apply(s, ListStart(l))) == ListSpecs(Specs(s.lists), l)
  {
    ApplySpecs(s, ListStart(l));
  }

  /** One list: nothing when the file does not hold it; otherwise ListStart, every context found
      by the list's context search, and ListEnd. specs are the specifications of every list. */
  function ListTrace(doc: Doc, env: CastEnv, specs: map<string, map<string, TableSpec>>, ofxList: string, globals: seq<Var>, known: seq<string>): Trace
  {
    if !Found(doc, ".//" + ofxList) then Done
    else
      var body := ContextPieces(env, ListSpecs(specs, ofxList), doc.iterfind(SearchContext(ofxList)), FinalWord(ofxList), globals, known);
      Then(Then(Trace([ListStart(ofxList)], true), Chain(body)), Trace([ListEnd], true))
  }

  function ListPieces(doc: Doc, env: CastEnv, specs: map<string, map<string, TableSpec>>, lists: seq<string>, globals: seq<Var>, known: seq<string>): (r: seq<Trace>)
    ensures |r| == |lists| && forall i :: 0 <= i < |lists| ==> r[i] == ListTrace(doc, env, specs, lists[i], globals, known)
  {
    seq(|lists|, i requires 0 <= i < |lists| => ListTrace(doc, env, specs, lists[i], globals, known))
  }

  /** `for OFXList in DataWriter`: every list the writer names, in its order. */
  function RunTrace(doc: Doc, env: CastEnv, specs: map<string, map<string, TableSpec>>, lists: seq<string>, globals: seq<Var>, known: seq<string>): Trace
  {
    Chain(ListPieces(doc, env, specs, lists, globals, known))
  }

  // ---------------------------------------------------------------------------------------------
  // What the traces hold

  function CountStarts(evs: seq<Event>): nat
    decreases |evs|
  {
    if evs == [] then 0 else CountStarts(evs[..|evs| - 1]) + (if evs[|evs| - 1].RecStart? then 1 else 0)
  }

  function CountEnds(evs: seq<Event>): nat
    decreases |evs|
  {
    if evs == [] then 0 else CountEnds(evs[..|evs| - 1]) + (if evs[|evs| - 1].RecEnd? then 1 else 0)
  }

  lemma {:induction false} CountAppend(a: seq<Event>, b: seq<Event>)
    ensures CountStarts(a + b) == CountStarts(a) + CountStarts(b)
    ensures CountEnds(a + b) == CountEnds(a) + CountEnds(b)
    decreases |b|
  {
    if b == [] {
      assert a + b == a;
    } else {
      var n := |b| - 1;
      CountAppend(a, b[..n]);
      assert (a + b)[..|a + b| - 1] == a + b[..n];
      assert (a + b)[|a + b| - 1] == b[n];
    }
  }

  lemma {:induction false} MidCounts(evs: seq<Event>)
    requires forall i :: 0 <= i < |evs| ==> evs[i].PutData?
    ensures CountStarts(evs) == 0 && CountEnds(evs) == 0
    decreases |evs|
  {
    if evs != [] {
      MidCounts(evs[..|evs| - 1]);
    }
  }

  /** An entry opens exactly one record, and closes it when it runs to the end. */
  lemma {:induction false} EntryCounts(env: CastEnv, sp: map<string, TableSpec>, entry: Element, listtag: string, vars: seq<Var>)
    ensures var t := EntryTrace(env, sp, entry, listtag, vars);
      CountStarts(t.evs) == 1 && CountEnds(t.evs) == (if t.ok then 1 else 0)
  {
    var t := EntryTrace(env, sp, entry, listtag, vars);
    assert CountStarts([RecStart]) == CountStarts([]) + 1;
    if t.ok {
      var ps := EntryPuts(entry, listtag, vars).value;
      var mid := Puts(env, ps);
      assert t.evs == [RecStart] + mid + [RecEnd];
      MidCounts(mid);
      CountAppend([RecStart], mid);
      CountAppend([RecStart] + mid, [RecEnd]);
      assert CountEnds([RecEnd]) == CountEnds([]) + 1;
    } else {
      var mid := t.evs[1..];
      assert t.evs == [RecStart] + mid;
      MidCounts(mid);
      CountAppend([RecStart], mid);
    }
  }

  /** The entries of a wrapper: its children other than DTSTART and DTEND. */
  function Entries(cs: seq<Element>): nat
    decreases |cs|
  {
    if cs == [] then 0 else Entries(cs[..|cs| - 1]) + (if cs[|cs| - 1].tag in DateTags then 0 else 1)
  }

  /** A wrapper that runs to the end gives exactly one RecStart and one RecEnd per entry. */
  lemma {:induction false} WrapperCounts(env: CastEnv, sp: map<string, TableSpec>, cs: seq<Element>, listtag: string, vars: seq<Var>)
    requires WrapperTrace(env, sp, cs, listtag, vars).ok
    ensures CountStarts(WrapperTrace(env, sp, cs, listtag, vars).evs) == Entries(cs)
    ensures CountEnds(WrapperTrace(env, sp, cs, listtag, vars).evs) == Entries(cs)
    decreases |cs|
  {
    if cs != [] {
      var n := |cs| - 1;
      var ts := ChildPieces(env, sp, cs, listtag, vars);
      assert ts[..n] == ChildPieces(env, sp, cs[..n], listtag, vars);
      var pre := Chain(ts[..n]);
      assert ts[..|ts|] == ts;
      assert pre.ok;
      WrapperCounts(env, sp, cs[..n], listtag, vars);
      CountAppend(pre.evs, ts[n].evs);
      if cs[n].tag !in DateTags {
        EntryCounts(env, sp, cs[n], listtag, vars);
      }
    }
  }

  /** A wrapper runs to the end when none of its entries makes ProcessListEntry raise and no
      context value's put raises. */
  lemma {:induction false} WrapperRuns(env: CastEnv, sp: map<string, TableSpec>, cs: seq<Element>, listtag: string, vars: seq<Var>)
    requires forall c :: c in cs && c.tag !in DateTags ==> ListEntryPuts(c, listtag).Some?
    requires forall v <- vars :: !Raises(sp, v)
    ensures WrapperTrace(env, sp, cs, listtag, vars).ok
    decreases |cs|
  {
    if cs != [] {
      var n := |cs| - 1;
      var ts := ChildPieces(env, sp, cs, listtag, vars);
      assert ts[..n] == ChildPieces(env, sp, cs[..n], listtag, vars);
      assert ts[..|ts|] == ts;
      WrapperRuns(env, sp, cs[..n], listtag, vars);
    }
  }

  // ---------------------------------------------------------------------------------------------
  // The loops

  method PutAll(w: Writer, env: CastEnv, ps: seq<PutReq>)
    requires w.Valid()
    modifies w
    ensures w.Valid() && w.order == old(w.order)
    ensures w.State() == ApplyAll(old(w.State()), Puts(env, ps))
  {
    ghost var s0 := w.State();
    for i := 0 to |ps|
      invariant w.Valid() && w.order == old(w.order)
      invariant w.State() == ApplyAll(s0, Puts(env, ps[..i]))
    {
      ApplyAllSnoc(s0, Puts(env, ps[..i]), PutData(env, ps[i].tag, ps[i].value, ps[i].parent));
      assert Puts(env, ps[..i + 1]) == Puts(env, ps[..i]) + [PutData(env, ps[i].tag, ps[i].value, ps[i].parent)];
      w.PutData(env, ps[i].tag, ps[i].value, ps[i].parent);
    }
    assert ps[..|ps|] == ps;
  }

  /** Events other than ListStart keep the current list and every table specification. */
  lemma {:induction false} SpecsKept(s: WState, evs: seq<Event>)
    requires StateOk(s) && forall e <- evs :: !e.ListStart?
    ensures ApplyAll(s, evs).cur == s.cur && CurSpecs(ApplyAll(s, evs)) == CurSpecs(s)
    decreases |evs|
  {
    if evs != [] {
      var n := |evs| - 1;
      SpecsKept(s, evs[..n]);
      ApplySpecs(ApplyAll(s, evs[..n]), evs[n]);
    }
  }

  /** `for lv in listvars: DataWriter.OFXPutData(lv.tag, lv.value, lv.alttag)`, up to the first
      put that raises. */
  method PutVars(w: Writer, env: CastEnv, ghost sp: map<string, TableSpec>, vars: seq<Var>) returns (ok: bool)
    requires w.Valid() && CurSpecs(w.State()) == sp
    modifies w
    ensures w.Valid() && w.order == old(w.order) && CurSpecs(w.State()) == sp
    ensures ok <==> FirstRaising(sp, vars) == |vars|
    ensures w.State() == ApplyAll(old(w.State()), Puts(env, VarPuts(vars[..FirstRaising(sp, vars)])))
  {
    ghost var s0 := w.State();
    var i := 0;
    while i < |vars|
      invariant i <= FirstRaising(sp, vars) && w.Valid() && w.order == old(w.order) && CurSpecs(w.State()) == sp
      invariant w.State() == ApplyAll(s0, Puts(env, VarPuts(vars[..i])))
    {
      var v := vars[i];
      var put := w.PutValue(env, v.tag, v.value, v.alttag);
      FirstRaisingStep(sp, vars, i);
      if !put {
        return false;
      }
      var e := PutData(env, v.tag, TextOf(v.value), v.alttag);
      ApplyAllSnoc(s0, Puts(env, VarPuts(vars[..i])), e);
      VarPutsSnoc(vars, i);
      PutsAppend(env, VarPuts(vars[..i]), [PutReq(v.tag, TextOf(v.value), v.alttag)]);
      i := i + 1;
    }
    return true;
  }

  /** The events of an entry whose ProcessListEntry puts are lp: RecStart, those puts, the context
      values up to the first that raises, and, when none raises, the walk and RecEnd. */
  lemma {:induction false} EntryEvents(env: CastEnv, sp: map<string, TableSpec>, entry: Element, listtag: string, vars: seq<Var>)
    requires ListEntryPuts(entry, listtag).Some?
    ensures var lp, n := ListEntryPuts(entry, listtag).value, FirstRaising(sp, vars);
      var head := [RecStart] + Puts(env, lp) + Puts(env, VarPuts(vars[..n]));
      EntryTrace(env, sp, entry, listtag, vars).evs
        == if n < |vars| then head else head + Puts(env, WalkPuts(Pre(entry, None))) + [RecEnd]
  {
    var lp, n := ListEntryPuts(entry, listtag).value, FirstRaising(sp, vars);
    PutsAppend(env, lp, VarPuts(vars[..n]));
    if n == |vars| {
      assert vars[..n] == vars;
      PutsAppend(env, lp + VarPuts(vars), WalkPuts(Pre(entry, None)));
    }
  }

  /** The body of `for listentry in listwrapper` for one entry: ProcessListEntry's puts, the
      context values, then `for (e, parent) in ElandParent(listentry)`. sp are the
      specifications of the current list's tables. */
  method RunEntry(w: Writer, env: CastEnv, ghost sp: map<string, TableSpec>, entry: Element, listtag: string, vars: seq<Var>)
    returns (ok: bool)
    requires w.Valid() && CurSpecs(w.State()) == sp
    modifies w
    ensures w.Valid() && w.order == old(w.order)
    ensures ok == EntryTrace(env, sp, entry, listtag, vars).ok
    ensures w.State() == ApplyAll(old(w.State()), EntryTrace(env, sp, entry, listtag, vars).evs)
    ensures w.cur == old(w.cur) && CurSpecs(w.State()) == sp
  {
    ghost var s0 := w.State();
    ghost var evs := EntryTrace(env, sp, entry, listtag, vars).evs;
    w.RecStart();
    assert w.State() == ApplyAll(s0, [RecStart]) by { ApplyAllSnoc(s0, [], RecStart); }
    var lp := ListEntryPuts(entry, listtag);
    if lp.None? {
      SpecsKept(s0, evs);
      return false;
    }
    EntryEvents(env, sp, entry, listtag, vars);
    ghost var n := FirstRaising(sp, vars);
    ghost var head := [RecStart] + Puts(env, lp.value) + Puts(env, VarPuts(vars[..n]));
    PutAll(w, env, lp.value);
    ApplyAllAppend(s0, [RecStart], Puts(env, lp.value));
    SpecsKept(s0, [RecStart] + Puts(env, lp.value));
    var all := PutVars(w, env, sp, vars);
    ApplyAllAppend(s0, [RecStart] + Puts(env, lp.value), Puts(env, VarPuts(vars[..n])));
    if !all {
      SpecsKept(s0, evs);
      return false;
    }
    var pairs := Walk(entry);
    PutAll(w, env, WalkPuts(pairs));
    ApplyAllAppend(s0, head, Puts(env, WalkPuts(pairs)));
    w.RecEnd();
    ApplyAllSnoc(s0, head + Puts(env, WalkPuts(pairs)), RecEnd);
    SpecsKept(s0, evs);
    ok := true;
  }

  /** `for listentry in listwrapper`. */
  method RunWrapper(w: Writer, env: CastEnv, ghost sp: map<string, TableSpec>, wrapper: Element, listtag: string, vars: seq<Var>)
    returns (ok: bool)
    requires w.Valid() && CurSpecs(w.State()) == sp
    modifies w
    ensures w.Valid() && w.order == old(w.order)
    ensures ok == WrapperTrace(env, sp, wrapper.children, listtag, vars).ok
    ensures w.State() == ApplyAll(old(w.State()), WrapperTrace(env, sp, wrapper.children, listtag, vars).evs)
    ensures w.cur == old(w.cur) && CurSpecs(w.State()) == sp
  {
    ghost var s0 := w.State();
    var cs := wrapper.children;
    ghost var ts := ChildPieces(env, sp, cs, listtag, vars);
    for i := 0 to |cs|
      invariant w.Valid() && w.order == old(w.order)
      invariant Chain(ts[..i]).ok && w.State() == ApplyAll(s0, Chain(ts[..i]).evs)
      invariant w.cur == s0.cur && CurSpecs(w.State()) == sp
    {
      ChainStep(s0, ts, i);
      if cs[i].tag !in DateTags {
        var r := RunEntry(w, env, sp, cs[i], listtag, vars);
        if !r {
          ChainStops(ts, i + 1);
          return false;
        }
      }
    }
    assert ts[..|cs|] == ts;
    return true;
  }

  /** `for listwrapper in listcontext.iter(listtag)`, after AddData has gathered the context. */
  method RunContext(w: Writer, env: CastEnv, ghost sp: map<string, TableSpec>, ctx: Element, listtag: string,
                    globals: seq<Var>, known: seq<string>) returns (ok: bool)
    requires w.Valid() && CurSpecs(w.State()) == sp
    modifies w
    ensures w.Valid() && w.order == old(w.order)
    ensures ok == ContextTrace(env, sp, ctx, listtag, globals, known).ok
    ensures w.State() == ApplyAll(old(w.State()), ContextTrace(env, sp, ctx, listtag, globals, known).evs)
    ensures w.cur == old(w.cur) && CurSpecs(w.State()) == sp
  {
    ghost var s0 := w.State();
    var vars := AddData(ctx, globals, listtag, known);
    var pairs := Walk(ctx);
    var ws := TagIter(pairs, listtag);
    ghost var ts := WrapperPieces(env, sp, ws, listtag, vars);
    for i := 0 to |ws|
      invariant w.Valid() && w.order == old(w.order)
      invariant Chain(ts[..i]).ok && w.State() == ApplyAll(s0, Chain(ts[..i]).evs)
      invariant w.cur == s0.cur && CurSpecs(w.State()) == sp
    {
      ChainStep(s0, ts, i);
      var r := RunWrapper(w, env, sp, ws[i], listtag, vars);
      if !r {
        ChainStops(ts, i + 1);
        return false;
      }
    }
    assert ts[..|ws|] == ts;
    return true;
  }

  /** The body of `for OFXList in DataWriter` for one list. */
  method RunList(w: Writer, doc: Doc, env: CastEnv, ghost specs: map<string, map<string, TableSpec>>, ofxList: string,
                 globals: seq<Var>, known: seq<string>) returns (ok: bool)
    requires w.Valid() && Specs(w.lists) == specs
    modifies w
    ensures w.Valid() && w.order == old(w.order)
    ensures ok == ListTrace(doc, env, specs, ofxList, globals, known).ok
    ensures w.State() == ApplyAll(old(w.State()), ListTrace(doc, env, specs, ofxList, globals, known).evs)
  {
    ghost var s0 := w.State();
    if !Found(doc, ".//" + ofxList) {
      return true;
    }
    var uppercontext := SearchContext(ofxList);
    var listtag := FinalWord(ofxList);
    var _ := w.ListStart(ofxList);
    ghost var s1 := w.State();
    assert s1 == ApplyAll(s0, [ListStart(ofxList)]) by { ApplyAllSnoc(s0, [], ListStart(ofxList)); }
    ghost var sp := ListSpecs(specs, ofxList);
    ListStartSpecs(s0, ofxList);
    var cts := doc.iterfind(uppercontext);
    ghost var ts := ContextPieces(env, sp, cts, listtag, globals, known);
    for i := 0 to |cts|
      invariant w.Valid() && w.order == old(w.order) && CurSpecs(w.State()) == sp
      invariant Chain(ts[..i]).ok && w.State() == ApplyAll(s1, Chain(ts[..i]).evs)
    {
      ChainStep(s1, ts, i);
      var r := RunContext(w, env, sp, cts[i], listtag, globals, known);
      if !r {
        ChainStops(ts, i + 1);
        ApplyAllAppend(s0, [ListStart(ofxList)], Chain(ts).evs);
        return false;
      }
    }
    assert ts[..|cts|] == ts;
    ApplyAllAppend(s0, [ListStart(ofxList)], Chain(ts).evs);
    w.ListEnd();
    ApplyAllSnoc(s0, [ListStart(ofxList)] + Chain(ts).evs, ListEnd);
    return true;
  }

  /** One pass of the list loop: the events of list l follow those of the lists before it. */
  method RunStep(w: Writer, doc: Doc, env: CastEnv, ghost specs: map<string, map<string, TableSpec>>, l: string,
                 globals: seq<Var>, known: seq<string>,
                 ghost s0: WState, ghost lists: seq<string>, ghost ts: seq<Trace>, ghost i: nat) returns (ok: bool)
    requires i < |lists| && l == lists[i] && ts == ListPieces(doc, env, specs, lists, globals, known)
    requires w.Valid() && StateOk(s0) && Specs(s0.lists) == specs
    requires Chain(ts[..i]).ok && w.State() == ApplyAll(s0, Chain(ts[..i]).evs)
    modifies w
    ensures w.Valid() && w.order == old(w.order)
    ensures ok == Chain(ts[..i + 1]).ok && w.State() == ApplyAll(s0, Chain(ts[..i + 1]).evs)
  {
    ChainStep(s0, ts, i);
    ApplyAllSpecs(s0, Chain(ts[..i]).evs);
    ok := RunList(w, doc, env, specs, l, globals, known);
  }

  /** `for OFXList in DataWriter`: the lists of the registry, in its order. */
  method Run(w: Writer, doc: Doc, env: CastEnv, globals: seq<Var>, known: seq<string>) returns (ok: bool)
    requires w.Valid()
    modifies w
    ensures w.Valid()
    ensures ok == RunTrace(doc, env, Specs(old(w.lists)), old(w.lists.keys), globals, known).ok
    ensures w.State() == ApplyAll(old(w.State()), RunTrace(doc, env, Specs(old(w.lists)), old(w.lists.keys), globals, known).evs)
  {
    ghost var s0 := w.State();
    ghost var lists := w.lists.keys;
    ghost var specs := Specs(w.lists);
    w.Iter();
    ghost var ts := ListPieces(doc, env, specs, lists, globals, known);
    assert RunTrace(doc, env, specs, lists, globals, known) == Chain(ts);
    ghost var i := 0;
    while true
      invariant w.Valid() && 0 <= i <= |lists| && w.order == lists[i..]
      invariant Chain(ts[..i]).ok && w.State() == ApplyAll(s0, Chain(ts[..i]).evs)
      decreases |w.order|
    {
      var next := w.Next();
      if next.None? {
        break;
      }
      assert next.value == lists[i] && w.order == lists[i + 1..];
      var r := RunStep(w, doc, env, specs, next.value, globals, known, s0, lists, ts, i);
      if !r {
        ChainStops(ts, i + 1);
        return false;
      }
      i := i + 1;
    }
    assert ts[..|lists|] == ts;
    return true;
  }

  // ---------------------------------------------------------------------------------------------
  // The program

  /** FID and ORG under .//SONRS//FI, the only values taken from outside the lists, holding the
      two children's texts (None for a child without text); None when the element or either
      child is missing (the lookups raise). */
  function GlobalVars(doc: Doc): (r: Option<seq<Var>>)
    ensures r.Some? ==> |r.value| == 2 && r.value[0].tag == "FID" && r.value[0].alttag == "FI/FID"
                        && r.value[1].tag == "ORG" && r.value[1].alttag == "FI/ORG"
    ensures r.Some? <==> doc.find(".//SONRS//FI").Some?
                         && FindChild(doc.find(".//SONRS//FI").value.children, "FID").Some?
                         && FindChild(doc.find(".//SONRS//FI").value.children, "ORG").Some?
    ensures r.Some? ==> var fi := doc.find(".//SONRS//FI").value;
                        && r.value[0].value == FindChild(fi.children, "FID").value.text
                        && r.value[1].value == FindChild(fi.children, "ORG").value.text
  {
    match doc.find(".//SONRS//FI")
    case None => None
    case Some(fi) =>
      match (FindChild(fi.children, "FID"), FindChild(fi.children, "ORG"))
      case (Some(fid), Some(org)) => Some([Var("FID", fid.text, "FI/FID"), Var("ORG", org.text, "FI/ORG")])
      case _ => None
  }

  /** Why the program stops before its list loop. */
  datatype Stop = NoInstitution | BadMapping(error: MapError)

  /** The main program: the lists of the universe present in the file, the global values, the
      writer built from the mapping for those lists, then the list loop. */
  method Convert(cfg: Config, doc: Doc, env: CastEnv, universe: seq<string>) returns (r: Result<Writer, Stop>, ok: bool)
    requires cfg.Valid()
    ensures var inThisFile := Present(doc, universe);
      && (GlobalVars(doc).None? ==> r == Err(NoInstitution))
      && (GlobalVars(doc).Some? && Rows(cfg).Err? ==> r == Err(BadMapping(Rows(cfg).error)))
      && (GlobalVars(doc).Some? && Rows(cfg).Ok? ==> RowsIn(cfg, Rows(cfg).value))
      && (GlobalVars(doc).Some? && Rows(cfg).Ok? && RowsIn(cfg, Rows(cfg).value) && Records(cfg, Rows(cfg).value).Err? ==>
            r == Err(BadMapping(Records(cfg, Rows(cfg).value).error)))
      && (GlobalVars(doc).Some? && Rows(cfg).Ok? && RowsIn(cfg, Rows(cfg).value) && Records(cfg, Rows(cfg).value).Ok? ==>
            var reg := Compile(Records(cfg, Rows(cfg).value).value, inThisFile);
            var t := RunTrace(doc, env, Specs(reg), reg.keys, GlobalVars(doc).value, inThisFile);
            && r.Ok? && fresh(r.value) && r.value.Valid() && ok == t.ok
            && StateOk(WState(reg, None)) && r.value.State() == ApplyAll(WState(reg, None), t.evs))
  {
    ok := false;
    var inThisFile := FilterInThisFile(doc, universe);
    var globals := GlobalVars(doc);
    if globals.None? {
      return Err(NoInstitution), false;
    }
    var wr := NewWriter(cfg, inThisFile);
    if wr.Err? {
      return Err(BadMapping(wr.error)), false;
    }
    var w := wr.value;
    ok := Run(w, doc, env, globals.value, inThisFile);
    r := Ok(w);
  }
}
