/** The document tree and ElandParent, the explicit-stack walk that gives every element of a
    subtree together with its parent, in depth-first pre-order. */
module Walker {
  import opened Wrappers

  /** An element: its tag, its text (None when the element has none) and its children in
      document order. */
  datatype Element = Element(tag: string, text: Option<string>, children: seq<Element>)

  /** What one step of the walk gives: the element and its parent (None for the start). */
  type Pair = (Element, Option<Element>)

  function Size(e: Element): nat
    decreases e, 1
  {
    1 + SizeSeq(e.children)
  }

  function SizeSeq(cs: seq<Element>): nat
    decreases cs, 0
  {
    if cs == [] then 0 else Size(cs[0]) + SizeSeq(cs[1..])
  }

  /** The pre-order walk of e below parent p: e first, then each child's walk in order. */
  function Pre(e: Element, p: Option<Element>): (r: seq<Pair>)
    ensures |r| == Size(e) && r[0] == (e, p)
    decreases e, 1
  {
    [(e, p)] + PreSeq(e.children, Some(e))
  }

  function PreSeq(cs: seq<Element>, p: Option<Element>): (r: seq<Pair>)
    ensures |r| == SizeSeq(cs)
    decreases cs, 0
  {
    if cs == [] then [] else Pre(cs[0], p) + PreSeq(cs[1..], p)
  }

  /** Every pair after the first has a parent, and the element is one of that parent's children. */
  lemma {:induction false} PreParents(e: Element, p: Option<Element>)
    ensures forall i :: 0 < i < |Pre(e, p)| ==>
      Pre(e, p)[i].1.Some? && Pre(e, p)[i].0 in Pre(e, p)[i].1.value.children
    decreases e, 1
  {
    PreSeqParents(e.children, e);
    assert forall i :: 0 < i < |Pre(e, p)| ==> Pre(e, p)[i] == PreSeq(e.children, Some(e))[i - 1];
  }

  /** In the walks of some of p's children, below p, every element has a parent among whose
      children it is. */
  lemma {:induction false} PreSeqParents(cs: seq<Element>, p: Element)
    requires forall c :: c in cs ==> c in p.children
    ensures forall i :: 0 <= i < |PreSeq(cs, Some(p))| ==>
      PreSeq(cs, Some(p))[i].1.Some? && PreSeq(cs, Some(p))[i].0 in PreSeq(cs, Some(p))[i].1.value.children
    decreases cs, 0
  {
    if cs != [] {
      var a := Pre(cs[0], Some(p));
      var b := PreSeq(cs[1..], Some(p));
      PreParents(cs[0], Some(p));
      PreSeqParents(cs[1..], p);
      var all := PreSeq(cs, Some(p));
      assert all == a + b;
      forall i | 0 <= i < |all| ensures all[i].1.Some? && all[i].0 in all[i].1.value.children {
        if i < |a| {
          assert all[i] == a[i];
        } else {
          assert all[i] == b[i - |a|];
        }
      }
    }
  }

  /** A start element without children gives exactly one pair. */
  lemma {:induction false} PreLeaf(e: Element)
    requires e.children == []
    ensures Pre(e, None) == [(e, None)]
  {
    assert PreSeq(e.children, Some(e)) == [];
  }

  // ---------------------------------------------------------------------------------------------
  // The stack

  /** The parent the walk gives to the head of stack level j. */
  function ParentAt(st: seq<seq<Element>>, j: nat): Option<Element>
    requires j < |st| && (j > 0 ==> |st[j - 1]| > 0)
  {
    if j == 0 then None else Some(st[j - 1][0])
  }

  /** Every level but the top still holds, at its head, the element whose children lie above. */
  ghost predicate StackOk(st: seq<seq<Element>>)
  {
    forall j :: 0 <= j < |st| - 1 ==> |st[j]| > 0
  }

  /** What the walk still gives from stack st: the whole top level, then the siblings after the
      head of each level below, from the top down. */
  function Below(st: seq<seq<Element>>): seq<Pair>
    requires forall j :: 0 <= j < |st| ==> |st[j]| > 0
    decreases |st|
  {
    if st == [] then []
    else
      var j := |st| - 1;
      PreSeq(st[j][1..], ParentAt(st, j)) + Below(st[..j])
  }

  function Remaining(st: seq<seq<Element>>): seq<Pair>
    requires StackOk(st)
  {
    if st == [] then []
    else
      var j := |st| - 1;
      PreSeq(st[j], ParentAt(st, j)) + Below(st[..j])
  }

  class ElandParent {
    const start: Element
    var pdl: seq<seq<Element>>

    ghost predicate Valid()
      reads this
    {
      StackOk(pdl)
    }

    /** The pairs the walk has still to give. */
    ghost function Rest(): seq<Pair>
      reads this
      requires Valid()
    {
      Remaining(pdl)
    }

    constructor (treeEl: Element)
      ensures start == treeEl && pdl == [] && Valid()
    {
      start := treeEl;
      pdl := [];
    }

    /** __iter__: the stack holds the start element alone; the whole pre-order walk is to come. */
    method Iter()
      modifies this
      ensures Valid() && pdl == [[start]] && Rest() == Pre(start, None)
    {
      pdl := [[start]];
      assert PreSeq([start], None) == Pre(start, None) + PreSeq([], None);
    }

    /** __next__: the next pair of the walk, or StopIteration (None) once none is left. */
    method Next() returns (r: Option<Pair>)
      requires Valid()
      modifies this
      ensures Valid()
      ensures old(Rest()) == [] ==> r == None && Rest() == []
      ensures old(Rest()) != [] ==> r == Some(old(Rest())[0]) && Rest() == old(Rest())[1..]
    {
      ghost var rest := Remaining(pdl);
      while |pdl| > 0
        invariant StackOk(pdl) && Remaining(pdl) == rest
        decreases |pdl|
      {
        var top := |pdl| - 1;
        if |pdl[top]| <= 0 {
          PopEmpty(pdl);
          pdl := pdl[..top];
          if |pdl| > 0 && |pdl[|pdl| - 1]| > 0 {
            pdl := pdl[..|pdl| - 1] + [pdl[|pdl| - 1][1..]];
          }
        } else {
          var parent := if |pdl| > 1 then Some(pdl[top - 1][0]) else None;
          var current := pdl[top][0];
          var x := current.children;
          PushChildren(pdl);
          pdl := pdl + [x];
          return Some((current, parent));
        }
      }
      return None;
    }
  }

  /** An empty top level is dropped, and the head of the level below, already given, with it. */
  lemma {:induction false} PopEmpty(st: seq<seq<Element>>)
    requires StackOk(st) && |st| > 0 && st[|st| - 1] == []
    ensures var s := st[..|st| - 1];
      && StackOk(s)
      && (|s| > 0 ==> StackOk(s[..|s| - 1] + [s[|s| - 1][1..]])
                      && Remaining(s[..|s| - 1] + [s[|s| - 1][1..]]) == Remaining(st))
      && (|s| == 0 ==> Remaining(st) == [])
  {
    var s := st[..|st| - 1];
    assert forall j :: 0 <= j < |s| ==> |s[j]| > 0;
    EmptyTop(st);
    if |s| > 0 {
      HeadGiven(s);
    }
  }

  /** An empty top level gives nothing: what remains is the levels below. */
  lemma {:induction false} EmptyTop(st: seq<seq<Element>>)
    requires StackOk(st) && |st| > 0 && st[|st| - 1] == []
    ensures Remaining(st) == Below(st[..|st| - 1])
  {
    assert PreSeq([], ParentAt(st, |st| - 1)) == [];
  }

  /** Dropping the given head of the top level leaves the siblings after it and the levels below. */
  lemma {:induction false} HeadGiven(s: seq<seq<Element>>)
    requires |s| > 0 && forall j :: 0 <= j < |s| ==> |s[j]| > 0
    ensures StackOk(s[..|s| - 1] + [s[|s| - 1][1..]])
    ensures Remaining(s[..|s| - 1] + [s[|s| - 1][1..]]) == Below(s)
  {
    var k := |s| - 1;
    var t := s[..k] + [s[k][1..]];
    assert t[..k] == s[..k];
    assert ParentAt(t, k) == ParentAt(s, k);
  }

  /** The head of the top level is given, and its children become the new top. */
  lemma {:induction false} PushChildren(st: seq<seq<Element>>)
    requires StackOk(st) && |st| > 0 && |st[|st| - 1]| > 0
    ensures var k := |st| - 1; var c := st[k][0];
      && StackOk(st + [c.children])
      && Remaining(st) == [(c, ParentAt(st, k))] + Remaining(st + [c.children])
  {
    var k := |st| - 1;
    var c := st[k][0];
    var p := ParentAt(st, k);
    var t := st + [c.children];
    assert t[..k + 1] == st;
    assert forall j :: 0 <= j < |st| ==> |st[j]| > 0;
    var kids, sibs, low := PreSeq(c.children, Some(c)), PreSeq(st[k][1..], p), Below(st[..k]);
    assert Below(st) == sibs + low;
    assert Remaining(t) == kids + (sibs + low) by {
      assert ParentAt(t, k + 1) == Some(c);
    }
    assert Remaining(st) == [(c, p)] + kids + sibs + low by {
      assert PreSeq(st[k], p) == Pre(c, p) + sibs;
    }
    Regroup((c, p), kids, sibs, low);
  }

  lemma Regroup<T>(a: T, x: seq<T>, y: seq<T>, z: seq<T>)
    ensures [a] + x + y + z == [a] + (x + (y + z))
  {
  }

  lemma Shift<T>(out: seq<T>, a: T, rest: seq<T>)
    ensures out + ([a] + rest) == (out + [a]) + rest
  {
  }

  /** `for pair in ElandParent(e)`: the pairs, in the order the walk gives them. */
  method Walk(e: Element) returns (out: seq<Pair>)
    ensures out == Pre(e, None)
  {
    var w := new ElandParent(e);
    w.Iter();
    out := [];
    while true
      invariant w.Valid() && out + w.Rest() == Pre(e, None)
      decreases |w.Rest()|
    {
      ghost var before := w.Rest();
      var r := w.Next();
      if r.None? {
        break;
      }
      assert before == [r.value] + w.Rest();
      Shift(out, r.value, w.Rest());
      out := out + [r.value];
    }
  }
}
