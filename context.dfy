/** The pieces of the main program that look at the document around a list entry: AddData,
    which gathers the "nearby" values every record of a list receives, ProcessListEntry, which
    derives the BUYSELL and ELEMENTNAME pseudo-tags from an entry's tag, and the splitting of a
    list path into its final word and the context above it. */
module Context {
  import opened Wrappers
  import opened Strs
  import opened Walker

  /** An XMLPairs tuple: tag, value and the parent-qualified tag. */
  datatype Var = Var(tag: string, value: Option<string>, alttag: string)

  /** `if e.text:` -- None and the empty string are false. */
  predicate Truthy(t: Option<string>) { t.Some? && t.value != "" }

  /** Element.find(tag): the first direct child with that tag. */
  function FindChild(cs: seq<Element>, tag: string): (r: Option<Element>)
    ensures r.Some? ==> r.value in cs && r.value.tag == tag
    ensures r.None? ==> forall c :: c in cs ==> c.tag != tag
  {
    if cs == [] then None else if cs[0].tag == tag then Some(cs[0]) else FindChild(cs[1..], tag)
  }

  lemma {:induction false} FindChildFirst(cs: seq<Element>, tag: string, i: nat)
    requires i < |cs| && cs[i].tag == tag && forall j :: 0 <= j < i ==> cs[j].tag != tag
    ensures FindChild(cs, tag) == Some(cs[i])
    decreases i
  {
    if i > 0 {
      FindChildFirst(cs[1..], tag, i - 1);
    }
  }

  // ---------------------------------------------------------------------------------------------
  // AddData

  /** The dates of the list being processed, raised to context values: each of the wrapper's
      direct children named in tags, the first one of each name, qualified by the wrapper's tag. */
  function Hoist(e: Element, tags: seq<string>): seq<Var>
    decreases |tags|
  {
    if tags == [] then []
    else
      var n := |tags| - 1;
      Hoist(e, tags[..n]) +
        match FindChild(e.children, tags[n])
        case None => []
        case Some(dt) => [Var(dt.tag, dt.text, e.tag + "/" + dt.tag)]
  }

  const DateTags: seq<string> := ["DTSTART", "DTEND"]

  /** The context values of the subtree e whose parent's tag is ptag: a known list gives only its
      hoisted dates, and only when it is the list being processed; any other element gives its
      own value when it has text, then the values of its children in order. */
  function Ctx(e: Element, ptag: string, known: seq<string>, listtag: string): seq<Var>
    decreases e, 1
  {
    if e.tag in known then (if e.tag == listtag then Hoist(e, DateTags) else [])
    else
      (if Truthy(e.text) then [Var(e.tag, e.text, ptag + "/" + e.tag)] else [])
      + CtxSeq(e.children, e.tag, known, listtag)
  }

  function CtxSeq(cs: seq<Element>, ptag: string, known: seq<string>, listtag: string): seq<Var>
    decreases cs, 0
  {
    if cs == [] then [] else Ctx(cs[0], ptag, known, listtag) + CtxSeq(cs[1..], ptag, known, listtag)
  }

  /** The tag the walk uses as parent for the head of stack level j. */
  function ParentTag(st: seq<seq<Element>>, j: nat): string
    requires j < |st| && (j > 0 ==> |st[j - 1]| > 0)
  {
    if j == 0 then "" else st[j - 1][0].tag
  }

  function CtxBelow(st: seq<seq<Element>>, known: seq<string>, listtag: string): seq<Var>
    requires forall j :: 0 <= j < |st| ==> |st[j]| > 0
    decreases |st|
  {
    if st == [] then []
    else
      var j := |st| - 1;
      CtxSeq(st[j][1..], ParentTag(st, j), known, listtag) + CtxBelow(st[..j], known, listtag)
  }

  /** The values still to be gathered from the stack save. */
  function CtxRest(st: seq<seq<Element>>, known: seq<string>, listtag: string): seq<Var>
    requires StackOk(st)
  {
    if st == [] then []
    else
      var j := |st| - 1;
      CtxSeq(st[j], ParentTag(st, j), known, listtag) + CtxBelow(st[..j], known, listtag)
  }

  /** The elements still to be looked at, counted twice, plus the stack depth. */
  function WeightBelow(st: seq<seq<Element>>): nat
    requires forall j :: 0 <= j < |st| ==> |st[j]| > 0
    decreases |st|
  {
    if st == [] then 0 else 2 * SizeSeq(st[|st| - 1][1..]) + 1 + WeightBelow(st[..|st| - 1])
  }

  function Weight(st: seq<seq<Element>>): nat
    requires StackOk(st)
  {
    if st == [] then 0 else 2 * SizeSeq(st[|st| - 1]) + 1 + WeightBelow(st[..|st| - 1])
  }

  /** An element that is not a known list is entered: its value is gathered, its children pushed. */
  lemma {:induction false} CtxEnter(st: seq<seq<Element>>, known: seq<string>, listtag: string)
    requires StackOk(st) && |st| > 0 && |st[|st| - 1]| > 0 && st[|st| - 1][0].tag !in known
    ensures var k := |st| - 1; var e := st[k][0]; var t := st + [e.children];
      && StackOk(t)
      && CtxRest(st, known, listtag) ==
           (if Truthy(e.text) then [Var(e.tag, e.text, ParentTag(st, k) + "/" + e.tag)] else []) + CtxRest(t, known, listtag)
      && Weight(t) < Weight(st)
  {
    var k := |st| - 1;
    var e := st[k][0];
    var t := st + [e.children];
    assert t[..k + 1] == st;
    assert forall j :: 0 <= j < |st| ==> |st[j]| > 0;
    EnterRest(st, known, listtag);
    EnterWeight(st);
  }

  lemma {:induction false} EnterRest(st: seq<seq<Element>>, known: seq<string>, listtag: string)
    requires |st| > 0 && forall j :: 0 <= j < |st| ==> |st[j]| > 0
    requires st[|st| - 1][0].tag !in known
    ensures var k := |st| - 1; var e := st[k][0]; var t := st + [e.children];
      && StackOk(t) && StackOk(st)
      && CtxRest(t, known, listtag) == CtxSeq(e.children, e.tag, known, listtag) + CtxBelow(st, known, listtag)
      && CtxRest(st, known, listtag) ==
           (if Truthy(e.text) then [Var(e.tag, e.text, ParentTag(st, k) + "/" + e.tag)] else []) + CtxRest(t, known, listtag)
  {
    var k := |st| - 1;
    var e := st[k][0];
    var t := st + [e.children];
    assert t[..k + 1] == st;
    var p := ParentTag(st, k);
    var below := CtxBelow(st[..k], known, listtag);
    var sibs := CtxSeq(st[k][1..], p, known, listtag);
    assert CtxBelow(st, known, listtag) == sibs + below;
    assert CtxRest(st, known, listtag) == CtxSeq(st[k], p, known, listtag) + below;
    assert CtxSeq(st[k], p, known, listtag) == Ctx(e, p, known, listtag) + sibs;
  }

  lemma {:induction false} EnterWeight(st: seq<seq<Element>>)
    requires |st| > 0 && forall j :: 0 <= j < |st| ==> |st[j]| > 0
    ensures var e := st[|st| - 1][0]; var t := st + [e.children];
      StackOk(t) && StackOk(st) && Weight(t) < Weight(st)
  {
    var k := |st| - 1;
    var e := st[k][0];
    var t := st + [e.children];
    assert t[..k + 1] == st;
    assert Weight(t) == 2 * SizeSeq(e.children) + 1 + WeightBelow(st);
    assert WeightBelow(st) == 2 * SizeSeq(st[k][1..]) + 1 + WeightBelow(st[..k]);
    assert SizeSeq(st[k]) == Size(e) + SizeSeq(st[k][1..]);
  }

  /** A known list is stepped over, keeping only its hoisted dates. */
  lemma {:induction false} CtxSkip(st: seq<seq<Element>>, known: seq<string>, listtag: string)
    requires StackOk(st) && |st| > 0 && |st[|st| - 1]| > 0 && st[|st| - 1][0].tag in known
    ensures var k := |st| - 1; var e := st[k][0]; var t := st[..k] + [st[k][1..]];
      && StackOk(t)
      && CtxRest(st, known, listtag) == (if e.tag == listtag then Hoist(e, DateTags) else []) + CtxRest(t, known, listtag)
      && Weight(t) < Weight(st)
  {
    SkipRest(st, known, listtag);
    SkipWeight(st);
  }

  lemma {:induction false} SkipRest(st: seq<seq<Element>>, known: seq<string>, listtag: string)
    requires StackOk(st) && |st| > 0 && |st[|st| - 1]| > 0
    ensures var k := |st| - 1; var t := st[..k] + [st[k][1..]];
      && StackOk(t)
      && CtxRest(st, known, listtag) == Ctx(st[k][0], ParentTag(st, k), known, listtag) + CtxRest(t, known, listtag)
  {
    var k := |st| - 1;
    var t := st[..k] + [st[k][1..]];
    assert t[..k] == st[..k];
    assert ParentTag(t, k) == ParentTag(st, k);
  }

  lemma {:induction false} SkipWeight(st: seq<seq<Element>>)
    requires StackOk(st) && |st| > 0 && |st[|st| - 1]| > 0
    ensures var k := |st| - 1; var t := st[..k] + [st[k][1..]];
      StackOk(t) && Weight(t) < Weight(st)
  {
    var k := |st| - 1;
    var t := st[..k] + [st[k][1..]];
    assert t[..k] == st[..k];
    assert SizeSeq(st[k]) == Size(st[k][0]) + SizeSeq(st[k][1..]);
  }

  /** An exhausted level is dropped, and the head of the level below with it. */
  lemma {:induction false} CtxPop(st: seq<seq<Element>>, known: seq<string>, listtag: string)
    requires StackOk(st) && |st| > 0 && st[|st| - 1] == []
    ensures var s := st[..|st| - 1];
      && StackOk(s)
      && (|s| > 0 ==> var t := s[..|s| - 1] + [s[|s| - 1][1..]];
                      StackOk(t) && CtxRest(t, known, listtag) == CtxRest(st, known, listtag) && Weight(t) < Weight(st))
      && (|s| == 0 ==> CtxRest(st, known, listtag) == [])
  {
    var s := st[..|st| - 1];
    assert forall j :: 0 <= j < |s| ==> |s[j]| > 0;
    CtxEmptyTop(st, known, listtag);
    if |s| > 0 {
      CtxHeadGiven(s, known, listtag);
    }
  }

  /** An empty top level gives nothing: what remains is the levels below. */
  lemma {:induction false} CtxEmptyTop(st: seq<seq<Element>>, known: seq<string>, listtag: string)
    requires StackOk(st) && |st| > 0 && st[|st| - 1] == []
    ensures CtxRest(st, known, listtag) == CtxBelow(st[..|st| - 1], known, listtag)
    ensures Weight(st) == 1 + WeightBelow(st[..|st| - 1])
  {
    assert CtxSeq([], ParentTag(st, |st| - 1), known, listtag) == [];
  }

  /** Dropping the given head of the top level leaves its siblings and the levels below. */
  lemma {:induction false} CtxHeadGiven(s: seq<seq<Element>>, known: seq<string>, listtag: string)
    requires |s| > 0 && forall j :: 0 <= j < |s| ==> |s[j]| > 0
    ensures StackOk(s[..|s| - 1] + [s[|s| - 1][1..]])
    ensures CtxRest(s[..|s| - 1] + [s[|s| - 1][1..]], known, listtag) == CtxBelow(s, known, listtag)
    ensures Weight(s[..|s| - 1] + [s[|s| - 1][1..]]) == WeightBelow(s)
  {
    var k := |s| - 1;
    var t := s[..k] + [s[k][1..]];
    assert t[..k] == s[..k];
    assert ParentTag(t, k) == ParentTag(s, k);
  }

  /** AddData(subTree, globalvars, listtag): the global values, unchanged and first, then the
      context values of subTree in document order. */
  method AddData(subTree: Element, globals: seq<Var>, listtag: string, known: seq<string>) returns (local: seq<Var>)
    ensures local == globals + Ctx(subTree, "", known, listtag)
  {
    local := globals;
    var save: seq<seq<Element>> := [[subTree]];
    assert [subTree][1..] == [];
    assert CtxSeq([subTree], "", known, listtag) == Ctx(subTree, "", known, listtag) + CtxSeq([], "", known, listtag);
    assert CtxRest(save, known, listtag) == CtxSeq([subTree], "", known, listtag) + CtxBelow([], known, listtag);
    while |save| > 0
      invariant StackOk(save)
      invariant local + CtxRest(save, known, listtag) == globals + Ctx(subTree, "", known, listtag)
      decreases Weight(save)
    {
      save, local := AddStep(save, local, listtag, known);
    }
  }

  /** One pass of the loop of AddData: the head of the top level is entered, stepped over or, when
      the level is exhausted, the level is dropped; what is gathered plus what remains stays the
      same, and the stack gets lighter. */
  method AddStep(save: seq<seq<Element>>, local: seq<Var>, listtag: string, known: seq<string>)
    returns (save': seq<seq<Element>>, local': seq<Var>)
    requires StackOk(save) && |save| > 0
    ensures StackOk(save') && Weight(save') < Weight(save)
    ensures local' + CtxRest(save', known, listtag) == local + CtxRest(save, known, listtag)
  {
    var top := |save| - 1;
    if |save[top]| > 0 {
      if save[top][0].tag !in known {
        save', local' := Enter(save, local, listtag, known);
      } else {
        save', local' := Skip(save, local, listtag, known);
      }
    } else {
      CtxPop(save, known, listtag);
      local' := local;
      save' := save[..top];
      if |save'| > 0 {
        save' := save'[..|save'| - 1] + [save'[|save'| - 1][1..]];
      }
    }
  }

  /** An element outside the known lists: its value, when it has text, is gathered, qualified by
      the tag of the element below it on the stack, and its children are pushed. */
  method Enter(save: seq<seq<Element>>, local: seq<Var>, listtag: string, known: seq<string>)
    returns (save': seq<seq<Element>>, local': seq<Var>)
    requires StackOk(save) && |save| > 0 && |save[|save| - 1]| > 0 && save[|save| - 1][0].tag !in known
    ensures StackOk(save') && Weight(save') < Weight(save)
    ensures local' + CtxRest(save', known, listtag) == local + CtxRest(save, known, listtag)
  {
    var top := |save| - 1;
    var e := save[top][0];
    CtxEnter(save, known, listtag);
    ghost var add := if Truthy(e.text) then [Var(e.tag, e.text, ParentTag(save, top) + "/" + e.tag)] else [];
    local' := local;
    if Truthy(e.text) {
      var parent := if |save| > 1 then save[top - 1][0].tag else "";
      local' := local + [Var(e.tag, e.text, parent + "/" + e.tag)];
    }
    save' := save + [e.children];
    assert local' == local + add;
    assert CtxRest(save, known, listtag) == add + CtxRest(save', known, listtag);
    Regroup(local, add, CtxRest(save', known, listtag));
  }

  /** A known list: stepped over, its dates hoisted when it is the list being processed. */
  method Skip(save: seq<seq<Element>>, local: seq<Var>, listtag: string, known: seq<string>)
    returns (save': seq<seq<Element>>, local': seq<Var>)
    requires StackOk(save) && |save| > 0 && |save[|save| - 1]| > 0 && save[|save| - 1][0].tag in known
    ensures StackOk(save') && Weight(save') < Weight(save)
    ensures local' + CtxRest(save', known, listtag) == local + CtxRest(save, known, listtag)
  {
    var top := |save| - 1;
    var e := save[top][0];
    CtxSkip(save, known, listtag);
    ghost var add := if e.tag == listtag then Hoist(e, DateTags) else [];
    local' := local;
    if e.tag == listtag {
      local' := HoistDates(e, local);
    }
    save' := save[..top] + [save[top][1..]];
    assert local' == local + add;
    assert CtxRest(save, known, listtag) == add + CtxRest(save', known, listtag);
    Regroup(local, add, CtxRest(save', known, listtag));
  }

  lemma {:induction false} Regroup(a: seq<Var>, b: seq<Var>, c: seq<Var>)
    ensures (a + b) + c == a + (b + c)
  {
  }

  /** `for dttag in ['DTSTART', 'DTEND']`: each date the wrapper holds is appended. */
  method HoistDates(e: Element, local: seq<Var>) returns (r: seq<Var>)
    ensures r == local + Hoist(e, DateTags)
  {
    r := local;
    for i := 0 to |DateTags|
      invariant r == local + Hoist(e, DateTags[..i])
    {
      var dt := FindChild(e.children, DateTags[i]);
      assert DateTags[..i + 1][..i] == DateTags[..i];
      if dt.Some? {
        r := r + [Var(dt.value.tag, dt.value.text, e.tag + "/" + dt.value.tag)];
      }
    }
    assert DateTags[..|DateTags|] == DateTags;
  }

  // ---------------------------------------------------------------------------------------------
  // The context values against the walk

  /** The values the pairs of a walk carry: each element with text, qualified by its parent's tag
      ("" for the walk root). */
  function Texts(ps: seq<Pair>): seq<Var>
    decreases |ps|
  {
    if ps == [] then []
    else
      var (x, q) := ps[|ps| - 1];
      Texts(ps[..|ps| - 1]) +
        (if Truthy(x.text) then [Var(x.tag, x.text, (if q.None? then "" else q.value.tag) + "/" + x.tag)] else [])
  }

  lemma {:induction false} TextsAppend(a: seq<Pair>, b: seq<Pair>)
    ensures Texts(a + b) == Texts(a) + Texts(b)
    decreases |b|
  {
    if b == [] {
      assert a + b == a;
    } else {
      var n := |b| - 1;
      TextsAppend(a, b[..n]);
      assert (a + b)[..|a + b| - 1] == a + b[..n];
      assert (a + b)[|a + b| - 1] == b[n];
    }
  }

  /** No element of the subtree is a known list. */
  predicate Free(e: Element, known: seq<string>)
    decreases e, 1
  {
    e.tag !in known && FreeSeq(e.children, known)
  }

  predicate FreeSeq(cs: seq<Element>, known: seq<string>)
    decreases cs, 0
  {
    cs == [] || (Free(cs[0], known) && FreeSeq(cs[1..], known))
  }

  /** Away from the known lists, AddData gathers exactly the text-bearing elements of the
      pre-order walk, each qualified by its parent's tag. */
  lemma {:induction false} CtxIsWalk(e: Element, p: Option<Element>, known: seq<string>, listtag: string)
    requires Free(e, known)
    ensures Ctx(e, if p.None? then "" else p.value.tag, known, listtag) == Texts(Pre(e, p))
    decreases e, 1
  {
    CtxSeqIsWalk(e.children, e, known, listtag);
    TextsAppend([(e, p)], PreSeq(e.children, Some(e)));
    assert [(e, p)][..0] == [];
  }

  lemma {:induction false} CtxSeqIsWalk(cs: seq<Element>, q: Element, known: seq<string>, listtag: string)
    requires FreeSeq(cs, known)
    ensures CtxSeq(cs, q.tag, known, listtag) == Texts(PreSeq(cs, Some(q)))
    decreases cs, 0
  {
    if cs != [] {
      CtxIsWalk(cs[0], Some(q), known, listtag);
      CtxSeqIsWalk(cs[1..], q, known, listtag);
      TextsAppend(Pre(cs[0], Some(q)), PreSeq(cs[1..], Some(q)));
    }
  }

  /** A known list other than the list being processed contributes nothing, however deep its
      subtree; the list being processed contributes only its first DTSTART and DTEND children,
      qualified by its own tag. */
  lemma {:induction false} KnownListsSkipped(e: Element, ptag: string, known: seq<string>, listtag: string)
    requires e.tag in known
    ensures e.tag != listtag ==> Ctx(e, ptag, known, listtag) == []
    ensures forall v :: v in Ctx(e, ptag, known, listtag) ==>
      e.tag == listtag && v.tag in DateTags && v.alttag == listtag + "/" + v.tag
  {
    var h := Hoist(e, DateTags);
    assert DateTags[..1] == ["DTSTART"];
    assert Hoist(e, ["DTSTART"]) == Hoist(e, []) + (match FindChild(e.children, "DTSTART") case None => [] case Some(dt) => [Var(dt.tag, dt.text, e.tag + "/" + dt.tag)]);
  }

  // ---------------------------------------------------------------------------------------------
  // ProcessListEntry

  /** One OFXPutData call: tag, value and qualified tag. */
  datatype PutReq = PutReq(tag: string, value: string, parent: string)

  /** The BUYSELL value of an investment transaction, or None for the AttributeError raised when
      an INVBANKTRAN has no STMTTRN, its STMTTRN no TRNAMT, or the TRNAMT no text. */
  function BuySell(entry: Element): (r: Option<string>)
    ensures r.None? ==> entry.tag == "INVBANKTRAN"
    ensures r.Some? ==> r.value in ["BUY", "SELL", "INCOME", "FEES", "OTHER"]
    ensures StartsWith(entry.tag, "BUY") ==> r == Some("BUY")
    ensures !StartsWith(entry.tag, "BUY") && StartsWith(entry.tag, "SELL") ==> r == Some("SELL")
    ensures entry.tag in ["INCOME", "REINVEST"] ==> r == Some("INCOME")
    ensures entry.tag in ["INVEXPENSE", "MARGININTEREST"] ==> r == Some("FEES")
    ensures (!StartsWith(entry.tag, "BUY") && !StartsWith(entry.tag, "SELL") &&
             entry.tag !in ["INVBANKTRAN", "INCOME", "REINVEST", "INVEXPENSE", "MARGININTEREST"]) ==> r == Some("OTHER")
  {
    NamedTagsPrefixes();
    var t := entry.tag;
    if StartsWith(t, "BUY") then Some("BUY")
    else if StartsWith(t, "SELL") then Some("SELL")
    else if t == "INVBANKTRAN" then
      match FindChild(entry.children, "STMTTRN")
      case None => None
      case Some(st) =>
        match FindChild(st.children, "TRNAMT")
        case None => None
        case Some(amt) =>
          if amt.text.None? then None
          else Some(if StartsWith(amt.text.value, "-") then "SELL" else "BUY")
    else if t == "INCOME" || t == "REINVEST" then Some("INCOME")
    else if t == "INVEXPENSE" || t == "MARGININTEREST" then Some("FEES")
    else Some("OTHER")
  }

  lemma {:induction false} DiffersAtStart(s: string, p: string)
    requires |s| > 0 && |p| > 0 && s[0] != p[0]
    ensures !StartsWith(s, p)
  {
    if |p| <= |s| {
      assert s[..|p|][0] == s[0];
    }
  }

  /** The tags matched by name start with neither BUY nor SELL. */
  lemma {:induction false} NamedTagsPrefixes()
    ensures forall t <- ["INVBANKTRAN", "INCOME", "REINVEST", "INVEXPENSE", "MARGININTEREST"] ::
      !StartsWith(t, "BUY") && !StartsWith(t, "SELL")
  {
    forall t <- ["INVBANKTRAN", "INCOME", "REINVEST", "INVEXPENSE", "MARGININTEREST"]
      ensures !StartsWith(t, "BUY") && !StartsWith(t, "SELL")
    {
      DiffersAtStart(t, "BUY");
      DiffersAtStart(t, "SELL");
    }
  }

  /** A bank transaction inside an investment list is a sale exactly when its amount is negative. */
  lemma {:induction false} BankTranSign(entry: Element, st: Element, amt: Element, text: string)
    requires entry.tag == "INVBANKTRAN"
    requires FindChild(entry.children, "STMTTRN") == Some(st)
    requires FindChild(st.children, "TRNAMT") == Some(amt) && amt.text == Some(text)
    ensures BuySell(entry) == Some(if |text| > 0 && text[0] == '-' then "SELL" else "BUY")
  {
    assert StartsWith(text, "-") <==> |text| > 0 && text[0] == '-' by {
      if |text| > 0 { assert text[..1] == [text[0]]; }
    }
    NamedTagsPrefixes();
  }

  /** The puts of ProcessListEntry: in an INVTRANLIST exactly one BUYSELL put, then always the
      ELEMENTNAME put of the entry's tag, qualified by the list's tag. */
  function ListEntryPuts(entry: Element, whatList: string): (r: Option<seq<PutReq>>)
    ensures r.None? <==> whatList == "INVTRANLIST" && BuySell(entry).None?
    ensures r.Some? ==> |r.value| > 0 && r.value[|r.value| - 1] == PutReq("ELEMENTNAME", entry.tag, whatList + "/ELEMENTNAME")
    ensures r.Some? && whatList == "INVTRANLIST" ==>
      |r.value| == 2 && r.value[0] == PutReq("BUYSELL", BuySell(entry).value, "INVTRANLIST/BUYSELL")
    ensures r.Some? && whatList != "INVTRANLIST" ==> |r.value| == 1
  {
    var name := PutReq("ELEMENTNAME", entry.tag, whatList + "/ELEMENTNAME");
    if whatList == "INVTRANLIST" then
      match BuySell(entry)
      case None => None
      case Some(v) => Some([PutReq("BUYSELL", v, "INVTRANLIST/BUYSELL"), name])
    else Some([name])
  }

  // ---------------------------------------------------------------------------------------------
  // Path splitting

  /** re.sub(r'(//?)?\w+$', '', path): the final word and the one or two slashes before it are
      cut; `$` also matches before one final newline, which stays. A path not ending in a word
      comes back unchanged. */
  function UpperContext(s: string): string
  {
    var body := if |s| > 0 && s[|s| - 1] == '\n' then s[..|s| - 1] else s;
    var n := WordSuffix(body);
    if n == 0 then s
    else
      s[..CutStart(body, |body| - n)] + s[|body|..]
  }

  /** The XPath of the list's surrounding context: the upper context, or the list tag itself when
      the path is a single word. */
  function SearchContext(s: string): string
  {
    var uc := UpperContext(s);
    if uc != "" then ".//" + uc else ".//" + FinalWord(s)
  }

  /** A one-line path ending in a word is its upper context, a separator of no, one or two
      slashes, and its final word; the context search is below the upper context, or below the
      list tag when nothing is above it. */
  lemma {:induction false} PathSplit(s: string) returns (sep: string)
    requires '\n' !in s && WordSuffix(s) > 0
    ensures sep in ["", "/", "//"] && s == UpperContext(s) + sep + FinalWord(s)
    ensures AllWord(FinalWord(s)) && FinalWord(s) != ""
    ensures sep == "" ==> UpperContext(s) == "" || !IsWordChar(UpperContext(s)[|UpperContext(s)| - 1])
    ensures SearchContext(s) == ".//" + if UpperContext(s) == "" then FinalWord(s) else UpperContext(s)
  {
    var m := |s| - WordSuffix(s);
    var start := CutStart(s, m);
    UpperContextCut(s);
    FinalWordShape(s);
    CutSeparator(s, m);
    var uc, w := UpperContext(s), FinalWord(s);
    sep := s[start..m];
    SplitThree(s, start, m);
    assert s == uc + sep + w;
    if start == m && m > 0 {
      assert uc[start - 1] == s[m - 1];
    }
  }

  lemma {:induction false} SplitThree<T>(s: seq<T>, i: nat, j: nat)
    requires i <= j <= |s|
    ensures s == s[..i] + s[i..j] + s[j..]
  {
  }

  /** The final word is all word characters, and the character before it is not one. */
  lemma {:induction false} FinalWordShape(s: string)
    requires '\n' !in s && WordSuffix(s) > 0
    ensures FinalWord(s) == s[|s| - WordSuffix(s)..] && AllWord(FinalWord(s)) && FinalWord(s) != ""
    ensures WordSuffix(s) < |s| ==> !IsWordChar(s[|s| - WordSuffix(s) - 1])
  {
    WordSuffixShape(s);
    var m := |s| - WordSuffix(s);
    assert forall i :: 0 <= i < |s[m..]| ==> s[m..][i] == s[m + i];
  }

  /** The cut before position m takes no, one or two slashes. */
  lemma {:induction false} CutSeparator(s: string, m: nat)
    requires m <= |s|
    ensures s[CutStart(s, m)..m] in ["", "/", "//"]
  {
    var start := CutStart(s, m);
    if start == m - 1 { assert s[start..m] == "/"; }
    if start == m - 2 { assert s[start..m] == [s[m - 2], s[m - 1]] == "//"; }
  }

  /** Where the cut of the upper context begins: before up to two slashes ahead of position m. */
  function CutStart(s: string, m: nat): (start: nat)
    requires m <= |s|
    ensures start <= m && m - start <= 2
  {
    if m >= 1 && s[m - 1] == '/' then (if m >= 2 && s[m - 2] == '/' then m - 2 else m - 1) else m
  }

  lemma {:induction false} UpperContextCut(s: string)
    requires '\n' !in s && WordSuffix(s) > 0
    ensures UpperContext(s) == s[..CutStart(s, |s| - WordSuffix(s))]
  {
    assert !(|s| > 0 && s[|s| - 1] == '\n');
    assert s[|s|..] == [];
  }
}
