/** The Excel workbook writer: the fill-down of formula references, the per-sheet index of
    header columns and key rows, the ready flag of the index build, and the routing of each
    record of a list to its indexed row or to a new row, with the insert and update counts. */
module Excel {
  import opened Wrappers
  import opened Strs
  import opened Values
  import opened Dicts
  import opened Compiler

  // ---------------------------------------------------------------------------------------------
  // repl and the fill-down of a formula: re.sub(r"(?<!\w)([a-z]{1,3})(\d+)", repl, f, flags=re.IGNORECASE)

  /** repl: the column letters of a reference, then its row number plus one. */
  function Repl(letters: string, digits: string): string
    requires AllDigits(digits)
  {
    letters + NatToStr(DigitsValue(digits) + 1)
  }

  /** repl keeps the letters and writes the row number one higher, in digits. */
  lemma ReplValue(letters: string, digits: string)
    requires AllDigits(digits)
    ensures var r := Repl(letters, digits);
      && |r| > |letters| && r[..|letters|] == letters
      && AllDigits(r[|letters|..]) && DigitsValue(r[|letters|..]) == DigitsValue(digits) + 1
  {
    var n := NatToStr(DigitsValue(digits) + 1);
    assert (letters + n)[|letters|..] == n;
  }

  /** The number of letters from position i on. */
  function LetterRun(s: string, i: nat): (n: nat)
    requires i <= |s|
    ensures i + n <= |s| && (forall k :: i <= k < i + n ==> IsLetter(s[k])) && (i + n < |s| ==> !IsLetter(s[i + n]))
    decreases |s| - i
  {
    if i < |s| && IsLetter(s[i]) then 1 + LetterRun(s, i + 1) else 0
  }

  /** The number of digits from position i on. */
  function DigitRun(s: string, i: nat): (n: nat)
    requires i <= |s|
    ensures i + n <= |s| && (forall k :: i <= k < i + n ==> IsDigit(s[k])) && (i + n < |s| ==> !IsDigit(s[i + n]))
    decreases |s| - i
  {
    if i < |s| && IsDigit(s[i]) then 1 + DigitRun(s, i + 1) else 0
  }

  /** A relative reference starts at i: no word character before it, one to three letters, then
      digits. With four letters or more the pattern cannot match inside the run either, since each
      later letter follows a word character. */
  predicate RefStart(s: string, i: nat)
    requires i < |s|
  {
    && (i == 0 || !IsWordChar(s[i - 1]))
    && 1 <= LetterRun(s, i) <= 3
    && DigitRun(s, i + LetterRun(s, i)) > 0
  }

  /** The fill-down of s from position i on: each reference is replaced by repl of it, every other
      character is kept; the scan resumes after each replaced reference. */
  function FillFrom(s: string, i: nat): string
    requires i <= |s|
    decreases |s| - i
  {
    if i == |s| then []
    else if RefStart(s, i) then
      var l := LetterRun(s, i);
      var d := DigitRun(s, i + l);
      Repl(s[i..i + l], s[i + l..i + l + d]) + FillFrom(s, i + l + d)
    else [s[i]] + FillFrom(s, i + 1)
  }

  function FillDown(s: string): string
  {
    FillFrom(s, 0)
  }

  /** A formula without references is copied down unchanged. */
  lemma {:induction false} FillDownNoRef(s: string)
    requires forall i :: 0 <= i < |s| ==> !RefStart(s, i)
    ensures FillDown(s) == s
  {
    FillFromNoRef(s, 0);
  }

  lemma {:induction false} FillFromNoRef(s: string, i: nat)
    requires i <= |s| && forall k :: i <= k < |s| ==> !RefStart(s, k)
    ensures FillFrom(s, i) == s[i..]
    decreases |s| - i
  {
    if i < |s| {
      FillFromNoRef(s, i + 1);
      assert s[i..] == [s[i]] + s[i + 1..];
    }
  }

  /** A lone reference moves down one row: same letters, row number plus one. */
  lemma {:induction false} FillDownRef(letters: string, digits: string)
    requires 1 <= |letters| <= 3 && (forall k :: 0 <= k < |letters| ==> IsLetter(letters[k]))
    requires |digits| > 0 && AllDigits(digits)
    ensures FillDown(letters + digits) == letters + NatToStr(DigitsValue(digits) + 1)
  {
    var s := letters + digits;
    RefAt(letters, digits);
    assert FillFrom(s, 0) == Repl(letters, digits) + FillFrom(s, |s|);
    assert FillFrom(s, |s|) == [];
  }

  /** Letters then digits make a reference at position 0 that spans the whole text. */
  lemma {:induction false} RefAt(letters: string, digits: string)
    requires 1 <= |letters| <= 3 && (forall k :: 0 <= k < |letters| ==> IsLetter(letters[k]))
    requires |digits| > 0 && AllDigits(digits)
    ensures var s := letters + digits;
      && RefStart(s, 0) && LetterRun(s, 0) == |letters| && DigitRun(s, |letters|) == |digits|
      && s[0..|letters|] == letters && s[|letters|..|letters| + |digits|] == digits
  {
    var s := letters + digits;
    var l, d := |letters|, |digits|;
    assert s[..l] == letters && s[l..] == digits;
    assert forall k :: 0 <= k < l ==> IsLetter(s[k]);
    assert !IsLetter(s[l]);
    LetterRunIs(s, 0, l);
    assert forall k :: l <= k < |s| ==> IsDigit(s[k]) by {
      forall k | l <= k < |s| ensures IsDigit(s[k]) { assert s[k] == digits[k - l]; }
    }
    DigitRunIs(s, l, d);
  }

  lemma {:induction false} LetterRunIs(s: string, i: nat, n: nat)
    requires i + n <= |s| && (forall k :: i <= k < i + n ==> IsLetter(s[k])) && (i + n < |s| ==> !IsLetter(s[i + n]))
    ensures LetterRun(s, i) == n
  {
  }

  lemma {:induction false} DigitRunIs(s: string, i: nat, n: nat)
    requires i + n <= |s| && (forall k :: i <= k < i + n ==> IsDigit(s[k])) && (i + n < |s| ==> !IsDigit(s[i + n]))
    ensures DigitRun(s, i) == n
  {
  }

  // ---------------------------------------------------------------------------------------------
  // The cells of a worksheet

  function Max(a: int, b: int): int { if a < b then b else a }

  function Min(a: int, b: int): int { if a < b then a else b }

  /** The cells of a worksheet by (row, column), both counted from 1, and its extent, max_row and
      max_column, which grow to take in every cell written. */
  datatype Grid = Grid(cells: map<(int, int), Value>, maxRow: int, maxCol: int)

  /** The value of a cell; a cell never written holds None. */
  function CellAt(g: Grid, r: int, c: int): Value
  {
    if (r, c) in g.cells then g.cells[(r, c)] else Null
  }

  /** ws.cell(row=r, column=c).value = v. */
  function SetCell(g: Grid, r: int, c: int, v: Value): (h: Grid)
    ensures CellAt(h, r, c) == v
    ensures forall r', c' :: r' != r || c' != c ==> CellAt(h, r', c') == CellAt(g, r', c')
    ensures h.maxRow == Max(g.maxRow, r) && h.maxCol == Max(g.maxCol, c)
  {
    Grid(g.cells[(r, c) := v], Max(g.maxRow, r), Max(g.maxCol, c))
  }

  /** The header row: the cells of row 1, columns 1 to max_column. */
  function Headers(g: Grid): (h: seq<Value>)
    ensures |h| == if g.maxCol < 0 then 0 else g.maxCol
    ensures forall j :: 0 <= j < |h| ==> h[j] == CellAt(g, 1, j + 1)
  {
    seq(if g.maxCol < 0 then 0 else g.maxCol, j => CellAt(g, 1, j + 1))
  }

  /** The first position holding v. */
  function Find(h: seq<Value>, v: Value): (r: Option<nat>)
    ensures r.Some? ==> r.value < |h| && h[r.value] == v && forall j :: 0 <= j < r.value ==> h[j] != v
    ensures r.None? <==> v !in h
  {
    if v in h then Some(IndexOf(h, v)) else None
  }

  /** The scan of the header cells for the first one equal to v. */
  method FindHeader(h: seq<Value>, v: Value) returns (r: Option<nat>)
    ensures r == Find(h, v)
  {
    for j := 0 to |h|
      invariant forall m :: 0 <= m < j ==> h[m] != v
    {
      if h[j] == v {
        return Some(j);
      }
    }
    return None;
  }

  /** Why an index build stops: the ConfigurationErrors for a mapped column or a key column with
      no header, and the TypeError or IndexError of `value[0]` on a last-row cell that is neither
      None nor a non-empty string. */
  datatype IndexError = MissingColumn(col: string) | MissingPK(col: string) | NotText(column: int)

  /** ws.colnbrs: the 1-based column of the first header equal to each mapped column, in order;
      the first mapped column without a header stops the build. */
  function ColNumbers(h: seq<Value>, cols: seq<string>): (r: Result<seq<int>, IndexError>)
    ensures r.Ok? ==> |r.value| == |cols| && forall i :: 0 <= i < |cols| ==> Find(h, Str(cols[i])) == Some(r.value[i] - 1)
    ensures r.Ok? <==> forall i :: 0 <= i < |cols| ==> Str(cols[i]) in h
    ensures r.Err? ==> exists i :: 0 <= i < |cols| && r.error == MissingColumn(cols[i]) && Str(cols[i]) !in h
    decreases |cols|
  {
    if cols == [] then Ok([])
    else
      var n := |cols| - 1;
      match ColNumbers(h, cols[..n])
      case Err(e) => Err(e)
      case Ok(ns) =>
        match Find(h, Str(cols[n]))
        case None => Err(MissingColumn(cols[n]))
        case Some(j) => Ok(ns + [j + 1])
  }

  /** Distinct column names find distinct header cells. */
  lemma {:induction false} ColNumbersFresh(h: seq<Value>, cols: seq<string>, i: nat, ns: seq<int>)
    requires NoDup(cols) && i < |cols| && ColNumbers(h, cols[..i]) == Ok(ns) && Find(h, Str(cols[i])).Some?
    ensures Find(h, Str(cols[i])).value + 1 !in ns
  {
    var j := Find(h, Str(cols[i])).value;
    forall m | 0 <= m < |ns| ensures ns[m] != j + 1 {
      assert cols[..i][m] == cols[m] && cols[m] != cols[i];
      assert Find(h, Str(cols[..i][m])) == Some(ns[m] - 1);
      assert h[ns[m] - 1] == Str(cols[m]) && h[j] == Str(cols[i]);
    }
  }

  lemma {:induction false} ColNumbersNoDup(h: seq<Value>, cols: seq<string>)
    requires NoDup(cols) && ColNumbers(h, cols).Ok?
    ensures NoDup(ColNumbers(h, cols).value)
  {
    var ns := ColNumbers(h, cols).value;
    forall a, b | 0 <= a < b < |ns| ensures ns[a] != ns[b] {
      assert Find(h, Str(cols[a])) == Some(ns[a] - 1) && Find(h, Str(cols[b])) == Some(ns[b] - 1);
      assert h[ns[a] - 1] == Str(cols[a]) && h[ns[b] - 1] == Str(cols[b]) && cols[a] != cols[b];
    }
  }

  /** pkcolnbrs: the 0-based column of the first header equal to each key column, in key order. */
  function PkNumbers(h: seq<Value>, pks: seq<string>): (r: Result<seq<int>, IndexError>)
    ensures r.Ok? ==> |r.value| == |pks| && forall i :: 0 <= i < |pks| ==> Find(h, Str(pks[i])) == Some(r.value[i])
    ensures r.Ok? <==> forall i :: 0 <= i < |pks| ==> Str(pks[i]) in h
    ensures r.Err? ==> exists i :: 0 <= i < |pks| && r.error == MissingPK(pks[i]) && Str(pks[i]) !in h
    decreases |pks|
  {
    if pks == [] then Ok([])
    else
      var n := |pks| - 1;
      match PkNumbers(h, pks[..n])
      case Err(e) => Err(e)
      case Ok(ns) =>
        match Find(h, Str(pks[n]))
        case None => Err(MissingPK(pks[n]))
        case Some(j) => Ok(ns + [j])
  }

  /** The key tuple of a sheet row: its values at the key columns. */
  function RowKey(g: Grid, r: int, pk: seq<int>): (k: seq<Value>)
    ensures |k| == |pk| && forall i :: 0 <= i < |pk| ==> k[i] == CellAt(g, r, pk[i] + 1)
  {
    seq(|pk|, i requires 0 <= i < |pk| => CellAt(g, r, pk[i] + 1))
  }

  /** ws.PKIndex after rows 2 to n: each row's key maps to its row number, later rows winning. */
  function IndexUpTo(g: Grid, pk: seq<int>, n: int): map<seq<Value>, int>
    decreases n
  {
    if n < 2 then map[] else IndexUpTo(g, pk, n - 1)[RowKey(g, n, pk) := n]
  }

  /** The index maps every key of rows 2..n to the last of those rows that holds it, and holds
      nothing else. */
  lemma {:induction false} IndexUpToSpec(g: Grid, pk: seq<int>, n: int)
    ensures forall k <- IndexUpTo(g, pk, n) :: 2 <= IndexUpTo(g, pk, n)[k] <= n && RowKey(g, IndexUpTo(g, pk, n)[k], pk) == k
    ensures forall r :: 2 <= r <= n ==> RowKey(g, r, pk) in IndexUpTo(g, pk, n) && IndexUpTo(g, pk, n)[RowKey(g, r, pk)] >= r
    decreases n
  {
    if n >= 2 {
      IndexUpToSpec(g, pk, n - 1);
    }
  }

  /** So a row maps to itself exactly when no later row repeats its key. */
  lemma {:induction false} IndexLastWins(g: Grid, pk: seq<int>, n: int, r: int)
    requires 2 <= r <= n
    ensures RowKey(g, r, pk) in IndexUpTo(g, pk, n)
    ensures IndexUpTo(g, pk, n)[RowKey(g, r, pk)] == r <==> forall r' :: r < r' <= n ==> RowKey(g, r', pk) != RowKey(g, r, pk)
  {
    IndexUpToSpec(g, pk, n);
  }

  /** No two keys share a row. */
  predicate Injective(idx: map<seq<Value>, int>)
  {
    forall k1 <- idx.Keys, k2 <- idx.Keys :: k1 != k2 ==> idx[k1] != idx[k2]
  }

  lemma {:induction false} IndexInjective(g: Grid, pk: seq<int>, n: int)
    ensures Injective(IndexUpTo(g, pk, n))
  {
    IndexUpToSpec(g, pk, n);
  }

  // ---------------------------------------------------------------------------------------------
  // The formula columns

  /** 1, 2, ..., n. */
  function Range(n: int): (r: seq<int>)
    ensures |r| == (if n < 0 then 0 else n) && forall i :: 0 <= i < |r| ==> r[i] == i + 1
    decreases n
  {
    if n <= 0 then [] else Range(n - 1) + [n]
  }

  /** The elements of s not in xs, in order. */
  function Without(s: seq<int>, xs: seq<int>): (r: seq<int>)
    ensures forall c :: c in r <==> c in s && c !in xs
    decreases |s|
  {
    if s == [] then [] else (if s[0] in xs then [] else [s[0]]) + Without(s[1..], xs)
  }

  /** list.remove(x) of an element present. */
  function RemoveFirst(s: seq<int>, x: int): seq<int>
    decreases |s|
  {
    if s == [] then [] else if s[0] == x then s[1..] else [s[0]] + RemoveFirst(s[1..], x)
  }

  /** Removing one more column, present once, from the columns left. */
  lemma {:induction false} RemoveFirstWithout(s: seq<int>, xs: seq<int>, x: int)
    requires NoDup(s) && x !in xs
    ensures RemoveFirst(Without(s, xs), x) == Without(s, xs + [x])
    decreases |s|
  {
    if s != [] {
      var w := Without(s[1..], xs);
      assert NoDup(s[1..]) by {
        forall a, b | 0 <= a < b < |s[1..]| ensures s[1..][a] != s[1..][b] {
          assert s[1..][a] == s[a + 1] && s[1..][b] == s[b + 1];
        }
      }
      if s[0] == x {
        assert x !in s[1..] by {
          forall m | 0 <= m < |s[1..]| ensures s[1..][m] != x {
            assert s[1..][m] == s[m + 1];
          }
        }
        assert Without(s, xs) == [x] + w;
        WithoutAbsent(s[1..], xs, x);
        assert Without(s, xs + [x]) == [] + Without(s[1..], xs + [x]);
      } else if s[0] in xs {
        RemoveFirstWithout(s[1..], xs, x);
        assert Without(s, xs) == w;
        assert Without(s, xs + [x]) == Without(s[1..], xs + [x]);
      } else {
        RemoveFirstWithout(s[1..], xs, x);
        assert Without(s, xs) == [s[0]] + w;
        assert ([s[0]] + w)[0] == s[0] && ([s[0]] + w)[1..] == w;
        assert Without(s, xs + [x]) == [s[0]] + Without(s[1..], xs + [x]);
      }
    }
  }

  lemma {:induction false} WithoutAbsent(s: seq<int>, xs: seq<int>, x: int)
    requires x !in s
    ensures Without(s, xs) == Without(s, xs + [x])
    decreases |s|
  {
    if s != [] {
      WithoutAbsent(s[1..], xs, x);
    }
  }

  lemma {:induction false} RangeNoDup(n: int)
    ensures NoDup(Range(n))
  {
  }

  /** The intended test of the pruning loop: a column stays in FormulaCols when the last row holds
      a formula there, a string starting with "=", on a sheet with rows below the header. */
  predicate IsFormula(g: Grid, c: int)
  {
    var v := CellAt(g, g.maxRow, c);
    v.Str? && |v.s| > 0 && v.s[0] == '=' && g.maxRow > 1
  }

  /** The columns of cs whose last cell holds a formula, every column examined, in order. */
  function FormulaColumns(g: Grid, cs: seq<int>): (r: seq<int>)
    ensures forall c :: c in r <==> c in cs && IsFormula(g, c)
    ensures |r| <= |cs|
    decreases |cs|
  {
    if cs == [] then []
    else
      var n := |cs| - 1;
      assert cs == cs[..n] + [cs[n]];
      FormulaColumns(g, cs[..n]) + if IsFormula(g, cs[n]) then [cs[n]] else []
  }

  /** The pruning of FormulaCols: every column examined once, those without a formula dropped. */
  method PruneFormulaCols(g: Grid, cs: seq<int>) returns (kept: seq<int>)
    ensures kept == FormulaColumns(g, cs)
  {
    kept := [];
    for i := 0 to |cs|
      invariant kept == FormulaColumns(g, cs[..i])
    {
      assert cs[..i + 1][..i] == cs[..i];
      var v := CellAt(g, g.maxRow, cs[i]);
      if v.Str? && |v.s| > 0 && v.s[0] == '=' && g.maxRow > 1 {
        kept := kept + [cs[i]];
      }
    }
    assert cs[..|cs|] == cs;
  }

  /** The test as written, `value is None or value[0] != "=" or ws.max_row <= 1`: true keeps the
      column; a value that is neither None nor a non-empty string raises before the row count is
      looked at. */
  function FormulaCheck(g: Grid, c: int): (r: Result<bool, IndexError>)
    ensures r.Ok? && r.value <==> IsFormula(g, c)
  {
    var v := CellAt(g, g.maxRow, c);
    if v == Null then Ok(false)
    else if v.Str? && |v.s| > 0 then Ok(v.s[0] == '=' && g.maxRow > 1)
    else Err(NotText(c))
  }

  /** The pruning loop as written: removing the column at the loop's position moves the next
      column into that position, and the loop then steps past it unexamined. */
  function FormulasAsWritten(g: Grid, cs: seq<int>): (r: Result<seq<int>, IndexError>)
    ensures r.Ok? ==> |r.value| <= |cs| && forall c <- r.value :: c in cs
    decreases |cs|
  {
    if cs == [] then Ok([])
    else
      match FormulaCheck(g, cs[0])
      case Err(e) => Err(e)
      case Ok(true) =>
        (match FormulasAsWritten(g, cs[1..])
         case Err(e) => Err(e)
         case Ok(rest) => Ok([cs[0]] + rest))
      case Ok(false) =>
        if |cs| == 1 then Ok([])
        else
          match FormulasAsWritten(g, cs[2..])
          case Err(e) => Err(e)
          case Ok(rest) => Ok([cs[1]] + rest)
  }

  /** The columns p, already kept, before the result r of the rest. */
  function Prefixed(p: seq<int>, r: Result<seq<int>, IndexError>): Result<seq<int>, IndexError>
  {
    if r.Err? then r else Ok(p + r.value)
  }

  /** `for pvt.col in ws.FormulaCols: ... ws.FormulaCols.remove(pvt.col)`: the list iterator
      advances by position over the list being shortened. */
  method PruneAsWritten(g: Grid, cs: seq<int>) returns (r: Result<seq<int>, IndexError>)
    requires NoDup(cs)
    ensures r == FormulasAsWritten(g, cs)
  {
    var fc := cs;
    var i := 0;
    ghost var k := 0;
    assert Prefixed([], FormulasAsWritten(g, cs)) == FormulasAsWritten(g, cs) by {
      if FormulasAsWritten(g, cs).Ok? { assert [] + FormulasAsWritten(g, cs).value == FormulasAsWritten(g, cs).value; }
    }
    while i < |fc|
      invariant 0 <= i <= |fc| && NoDup(fc) && 0 <= k <= |cs| && |fc| - i == |cs| - k
      invariant fc[i..] == cs[k..]
      invariant Prefixed(fc[..i], FormulasAsWritten(g, cs[k..])) == FormulasAsWritten(g, cs)
      decreases |fc| - i
    {
      var col := fc[i];
      assert cs[k..][0] == col && cs[k..][1..] == cs[k + 1..];
      var check := FormulaCheck(g, col);
      if check.Err? {
        return Err(check.error);
      }
      if !check.value {
        if i + 1 == |fc| {
          assert cs[k + 1..] == [] && FormulasAsWritten(g, cs[k..]) == Ok([]);
          assert fc[..i] + [] == fc[..i];
          return Ok(fc[..i]);
        }
        assert cs[k..][2..] == cs[k + 2..];
        var fc' := fc[..i] + fc[i + 1..];
        assert fc'[..i + 1] == fc[..i] + [fc[i + 1]];
        assert fc'[i + 1..] == cs[k + 2..];
        SkipStep(g, fc[..i], fc[i + 1], cs[k..]);
        k := k + 2;
        RemoveAtNoDup(fc, i);
        fc := fc';
      } else {
        assert fc[..i + 1] == fc[..i] + [col];
        KeepStep(g, fc[..i], cs[k..]);
        k := k + 1;
      }
      i := i + 1;
    }
    assert fc[..i] == fc && cs[k..] == [];
    assert FormulasAsWritten(g, cs[k..]) == Ok([]);
    assert fc + [] == fc;
    return Ok(fc);
  }

  lemma {:induction false} KeepStep(g: Grid, p: seq<int>, rest: seq<int>)
    requires |rest| > 0 && FormulaCheck(g, rest[0]) == Ok(true)
    ensures Prefixed(p, FormulasAsWritten(g, rest)) == Prefixed(p + [rest[0]], FormulasAsWritten(g, rest[1..]))
  {
    var t := FormulasAsWritten(g, rest[1..]);
    if t.Ok? {
      assert p + ([rest[0]] + t.value) == p + [rest[0]] + t.value;
    }
  }

  lemma {:induction false} SkipStep(g: Grid, p: seq<int>, next: int, rest: seq<int>)
    requires |rest| > 1 && rest[1] == next && FormulaCheck(g, rest[0]) == Ok(false)
    ensures Prefixed(p, FormulasAsWritten(g, rest)) == Prefixed(p + [next], FormulasAsWritten(g, rest[2..]))
  {
    var t := FormulasAsWritten(g, rest[2..]);
    if t.Ok? {
      assert p + ([next] + t.value) == p + [next] + t.value;
    }
  }

  lemma {:induction false} RemoveAtNoDup(s: seq<int>, i: nat)
    requires NoDup(s) && i < |s|
    ensures NoDup(s[..i] + s[i + 1..])
  {
    var t := s[..i] + s[i + 1..];
    forall a, b | 0 <= a < b < |t| ensures t[a] != t[b] {
      var a' := if a < i then a else a + 1;
      var b' := if b < i then b else b + 1;
      assert t[a] == s[a'] && t[b] == s[b'];
    }
  }

  /** As written, a column that follows a dropped one is kept unexamined: two columns with empty
      last cells leave the second one in FormulaCols, where every examined column would go. */
  lemma SkippedColumnKept()
    ensures var g := Grid(map[], 2, 2);
      && FormulasAsWritten(g, [1, 2]) == Ok([2])
      && !IsFormula(g, 2)
      && FormulaColumns(g, [1, 2]) == []
  {
    var g := Grid(map[], 2, 2);
    assert FormulaCheck(g, 1) == Ok(false) && FormulaCheck(g, 2) == Ok(false);
    assert [1, 2][0] == 1 && [1, 2][1] == 2 && [1, 2][2..] == [];
    assert FormulasAsWritten(g, []) == Ok([]);
    assert [2] + [] == [2];
    assert [1, 2][..1] == [1] && [1][..0] == [];
  }

  // ---------------------------------------------------------------------------------------------
  // IndexOneWorksheet

  /** What a successful build sets on the worksheet. */
  datatype Built = Built(formulaCols: seq<int>, colnbrs: seq<int>, pkIndex: map<seq<Value>, int>)

  /** The index build of one worksheet for a table specification: the header column of each
      mapped column, the unmapped columns holding a formula in the last row, and the key index of
      rows 2 to max_row; a mapped or key column with no header stops it. */
  function BuildIndex(g: Grid, spec: TableSpec): Result<Built, IndexError>
  {
    var h := Headers(g);
    match ColNumbers(h, spec.cols.keys)
    case Err(e) => Err(e)
    case Ok(cn) =>
      match PkNumbers(h, spec.pkCols.keys)
      case Err(e) => Err(e)
      case Ok(pk) => Ok(Built(FormulaColumns(g, Without(Range(g.maxCol), cn)), cn, IndexUpTo(g, pk, g.maxRow)))
  }

  /** The same build with the pruning loop as written. */
  function BuildIndexAsWritten(g: Grid, spec: TableSpec): Result<Built, IndexError>
  {
    var h := Headers(g);
    match ColNumbers(h, spec.cols.keys)
    case Err(e) => Err(e)
    case Ok(cn) =>
      match FormulasAsWritten(g, Without(Range(g.maxCol), cn))
      case Err(e) => Err(e)
      case Ok(fc) =>
        match PkNumbers(h, spec.pkCols.keys)
        case Err(e) => Err(e)
        case Ok(pk) => Ok(Built(fc, cn, IndexUpTo(g, pk, g.maxRow)))
  }

  /** The build fails exactly when a mapped or key column has no header. */
  lemma {:induction false} BuildIndexOk(g: Grid, spec: TableSpec)
    ensures BuildIndex(g, spec).Ok? <==>
      (forall c <- spec.cols.keys :: Str(c) in Headers(g)) && (forall c <- spec.pkCols.keys :: Str(c) in Headers(g))
  {
    var h := Headers(g);
    if ColNumbers(h, spec.cols.keys).Err? {
      var i :| 0 <= i < |spec.cols.keys| && Str(spec.cols.keys[i]) !in h;
      assert spec.cols.keys[i] in spec.cols.keys;
    } else if PkNumbers(h, spec.pkCols.keys).Err? {
      var i :| 0 <= i < |spec.pkCols.keys| && Str(spec.pkCols.keys[i]) !in h;
      assert spec.pkCols.keys[i] in spec.pkCols.keys;
    }
  }

  /** The build as written succeeds only where the corrected build does, with the same column
      numbers and key index; its formula columns are unmapped columns of the sheet. */
  lemma {:induction false} BuildAsWrittenAgrees(g: Grid, spec: TableSpec)
    ensures BuildIndexAsWritten(g, spec).Ok? ==>
      var a, b := BuildIndexAsWritten(g, spec).value, BuildIndex(g, spec);
      && b.Ok? && a.colnbrs == b.value.colnbrs && a.pkIndex == b.value.pkIndex
      && forall c <- a.formulaCols :: 1 <= c <= g.maxCol && c !in a.colnbrs
  {
    var h := Headers(g);
    if BuildIndexAsWritten(g, spec).Ok? {
      var cn := ColNumbers(h, spec.cols.keys).value;
      var cs := Without(Range(g.maxCol), cn);
      forall c | c in cs ensures 1 <= c <= g.maxCol && c !in cn {
        assert c in Range(g.maxCol);
      }
    }
  }

  /** In a built index every mapped column sits under its own header and no two share a column;
      the formula columns are exactly the unmapped columns of the sheet whose last cell holds a
      formula. */
  lemma {:induction false} BuildIndexColumns(g: Grid, spec: TableSpec)
    requires spec.cols.Valid() && BuildIndex(g, spec).Ok?
    ensures var b := BuildIndex(g, spec).value;
      && |b.colnbrs| == |spec.cols.keys| && NoDup(b.colnbrs)
      && (forall i :: 0 <= i < |b.colnbrs| ==> 1 <= b.colnbrs[i] <= g.maxCol && CellAt(g, 1, b.colnbrs[i]) == Str(spec.cols.keys[i]))
      && (forall c :: c in b.formulaCols <==> 1 <= c <= g.maxCol && c !in b.colnbrs && IsFormula(g, c))
  {
    var h := Headers(g);
    var b := BuildIndex(g, spec).value;
    ColNumbersNoDup(h, spec.cols.keys);
    forall i | 0 <= i < |b.colnbrs| ensures 1 <= b.colnbrs[i] <= g.maxCol && CellAt(g, 1, b.colnbrs[i]) == Str(spec.cols.keys[i]) {
      assert Find(h, Str(spec.cols.keys[i])) == Some(b.colnbrs[i] - 1);
    }
    forall c ensures c in Range(g.maxCol) <==> 1 <= c <= g.maxCol {
      if 1 <= c <= g.maxCol {
        assert Range(g.maxCol)[c - 1] == c;
      }
    }
  }

  /** In a built index the key columns sit under their headers, and the key index maps each key
      of rows 2 to max_row to the last of those rows holding it, no two keys to one row. */
  lemma {:induction false} BuildIndexKeys(g: Grid, spec: TableSpec)
    requires BuildIndex(g, spec).Ok?
    ensures var b := BuildIndex(g, spec).value;
      var pk := PkNumbers(Headers(g), spec.pkCols.keys).value;
      && |pk| == |spec.pkCols.keys|
      && (forall i :: 0 <= i < |pk| ==> CellAt(g, 1, pk[i] + 1) == Str(spec.pkCols.keys[i]))
      && Injective(b.pkIndex)
      && (forall k <- b.pkIndex.Keys :: 2 <= b.pkIndex[k] <= g.maxRow && RowKey(g, b.pkIndex[k], pk) == k)
      && (forall r :: 2 <= r <= g.maxRow ==> RowKey(g, r, pk) in b.pkIndex && b.pkIndex[RowKey(g, r, pk)] >= r)
  {
    var h := Headers(g);
    var pk := PkNumbers(h, spec.pkCols.keys).value;
    forall i | 0 <= i < |pk| ensures CellAt(g, 1, pk[i] + 1) == Str(spec.pkCols.keys[i]) {
      assert Find(h, Str(spec.pkCols.keys[i])) == Some(pk[i]);
    }
    IndexUpToSpec(g, pk, g.maxRow);
    IndexInjective(g, pk, g.maxRow);
  }

  /** A sheet with headers ID and Note and one data row, ID 7 and the number 5 as its note. */
  function NoteSheet(): Grid
  {
    Grid(map[(1, 1) := Str("ID"), (1, 2) := Str("Note"), (2, 1) := Str("7"), (2, 2) := Dec("5")], 2, 2)
  }

  /** A table mapping the one column ID, which is also its key. */
  function IdSpec(): TableSpec
  {
    TableSpec(Dict(["ID"], map["ID" := 0]), Dict(["ID"], map["ID" := 0]), map[], [Null])
  }

  lemma NoteSheetColumns()
    ensures ColNumbers(Headers(NoteSheet()), ["ID"]) == Ok([1])
    ensures PkNumbers(Headers(NoteSheet()), ["ID"]) == Ok([0])
    ensures Without(Range(2), [1]) == [2]
  {
    var h := Headers(NoteSheet());
    assert h == [Str("ID"), Str("Note")];
    var ids: seq<string> := ["ID"];
    assert ids[..0] == [];
    assert Find(h, Str("ID")) == Some(0);
    assert ColNumbers(h, ids) == Ok([] + [0 + 1]);
    assert PkNumbers(h, ids) == Ok([] + [0]);
    assert [] + [0 + 1] == [1] && [] + [0] == [0];
    assert Range(2) == [1, 2];
    assert [1, 2][1..] == [2] && [2][1..] == [];
  }

  /** As written, a number in an unmapped column of the last row stops the whole build, where the
      intended test finds no formula there and the build succeeds. */
  lemma NumberCellStopsBuild()
    ensures BuildIndexAsWritten(NoteSheet(), IdSpec()) == Err(NotText(2))
    ensures BuildIndex(NoteSheet(), IdSpec()) == Ok(Built([], [1], map[[Str("7")] := 2]))
  {
    NoteSheetAsWritten();
    NoteSheetIntended();
  }

  lemma NoteSheetAsWritten()
    ensures BuildIndexAsWritten(NoteSheet(), IdSpec()) == Err(NotText(2))
  {
    var g := NoteSheet();
    NoteSheetColumns();
    assert FormulaCheck(g, 2) == Err(NotText(2));
  }

  lemma NoteSheetIntended()
    ensures BuildIndex(NoteSheet(), IdSpec()) == Ok(Built([], [1], map[[Str("7")] := 2]))
  {
    NoteSheetColumns();
    NoteSheetFormulas();
    NoteSheetIndex();
  }

  lemma NoteSheetFormulas()
    ensures FormulaColumns(NoteSheet(), [2]) == []
  {
    assert !IsFormula(NoteSheet(), 2);
    assert [2][..0] == [] && [2][0] == 2;
  }

  lemma NoteSheetIndex()
    ensures IndexUpTo(NoteSheet(), [0], 2) == map[[Str("7")] := 2]
  {
    assert RowKey(NoteSheet(), 2, [0]) == [Str("7")];
  }

  // ---------------------------------------------------------------------------------------------
  // The worksheet object

  /** Everything the writer reads or sets on a worksheet: its cells and the attributes the index
      build attaches (FormulaCols, colnbrs, PKIndex, and PKIndexIsReady, None while unset). */
  datatype SheetState = SheetState(grid: Grid, formulaCols: seq<int>, colnbrs: seq<int>,
                                   pkIndex: map<seq<Value>, int>, ready: Option<bool>)

  class Worksheet {
    var grid: Grid
    var formulaCols: seq<int>
    var colnbrs: seq<int>
    var pkIndex: map<seq<Value>, int>
    var ready: Option<bool>

    /** A worksheet as loaded or created: cells only, no index attributes. */
    constructor (g: Grid)
      ensures grid == g && formulaCols == [] && colnbrs == [] && pkIndex == map[] && ready == None
    {
      grid := g;
      formulaCols := [];
      colnbrs := [];
      pkIndex := map[];
      ready := None;
    }

    function Snap(): SheetState
      reads this
    {
      SheetState(grid, formulaCols, colnbrs, pkIndex, ready)
    }

    /** ws.cell(row=r, column=c).value = v. */
    method SetCellValue(r: int, c: int, v: Value)
      modifies this
      ensures grid == SetCell(old(grid), r, c, v)
      ensures formulaCols == old(formulaCols) && colnbrs == old(colnbrs) && pkIndex == old(pkIndex) && ready == old(ready)
    {
      grid := SetCell(grid, r, c, v);
    }
  }

  /** The effect of IndexOneWorksheet on a worksheet in state s0: on success the built attributes
      and the ready flag True; on failure the flag and the key index are left as they were. */
  ghost predicate Indexed(s0: SheetState, s1: SheetState, spec: TableSpec)
  {
    && s1.grid == s0.grid
    && match BuildIndex(s0.grid, spec)
       case Ok(b) => s1 == SheetState(s0.grid, b.formulaCols, b.colnbrs, b.pkIndex, Some(true))
       case Err(_) => s1.ready == s0.ready && s1.pkIndex == s0.pkIndex
  }

  /** The scan of the header row for each mapped column, in order: its column is appended to
      colnbrs and removed from the list of all columns, which leaves the unmapped ones. */
  method MapColumns(hdrs: seq<Value>, cols: seq<string>) returns (r: Result<seq<int>, IndexError>, fc: seq<int>)
    requires NoDup(cols)
    ensures r == ColNumbers(hdrs, cols)
    ensures r.Ok? ==> fc == Without(Range(|hdrs|), r.value)
  {
    var colnbrs: seq<int> := [];
    fc := Range(|hdrs|);
    RangeNoDup(|hdrs|);
    WithoutNone(fc);
    for i := 0 to |cols|
      invariant ColNumbers(hdrs, cols[..i]) == Ok(colnbrs)
      invariant fc == Without(Range(|hdrs|), colnbrs)
    {
      assert cols[..i + 1][..i] == cols[..i] && cols[..i + 1][i] == cols[i];
      var j := FindHeader(hdrs, Str(cols[i]));
      if j.None? {
        ColNumbersStop(hdrs, cols, i);
        return Err(MissingColumn(cols[i])), fc;
      }
      ColNumbersFresh(hdrs, cols, i, colnbrs);
      RemoveFirstWithout(Range(|hdrs|), colnbrs, j.value + 1);
      colnbrs := colnbrs + [j.value + 1];
      fc := RemoveFirst(fc, j.value + 1);
    }
    assert cols[..|cols|] == cols;
    r := Ok(colnbrs);
  }

  /** ColNumbers stops at the first mapped column with no header. */
  lemma {:induction false} ColNumbersStop(h: seq<Value>, cols: seq<string>, i: nat)
    requires i < |cols| && ColNumbers(h, cols[..i]).Ok? && Str(cols[i]) !in h
    ensures ColNumbers(h, cols) == Err(MissingColumn(cols[i]))
  {
    assert cols[..i + 1][..i] == cols[..i] && cols[..i + 1][i] == cols[i];
    if i + 1 < |cols| {
      ColNumbersErrKeeps(h, cols, i + 1);
    } else {
      assert cols[..i + 1] == cols;
    }
  }

  lemma {:induction false} ColNumbersErrKeeps(h: seq<Value>, cols: seq<string>, n: nat)
    requires 0 < n <= |cols| && ColNumbers(h, cols[..n]).Err?
    ensures ColNumbers(h, cols) == ColNumbers(h, cols[..n])
    decreases |cols| - n
  {
    if n < |cols| {
      assert cols[..n + 1][..n] == cols[..n];
      ColNumbersErrKeeps(h, cols, n + 1);
    } else {
      assert cols[..n] == cols;
    }
  }

  /** The scan of the header row for each key column, in key order. */
  method KeyColumns(hdrs: seq<Value>, pks: seq<string>) returns (r: Result<seq<int>, IndexError>)
    ensures r == PkNumbers(hdrs, pks)
  {
    var pk: seq<int> := [];
    for i := 0 to |pks|
      invariant PkNumbers(hdrs, pks[..i]) == Ok(pk)
    {
      assert pks[..i + 1][..i] == pks[..i] && pks[..i + 1][i] == pks[i];
      var j := FindHeader(hdrs, Str(pks[i]));
      if j.None? {
        assert Str(pks[i]) !in hdrs;
        PkNumbersStop(hdrs, pks, i);
        return Err(MissingPK(pks[i]));
      }
      pk := pk + [j.value];
    }
    assert pks[..|pks|] == pks;
    r := Ok(pk);
  }

  lemma {:induction false} PkNumbersStop(h: seq<Value>, pks: seq<string>, i: nat)
    requires i < |pks| && PkNumbers(h, pks[..i]).Ok? && Str(pks[i]) !in h
    ensures PkNumbers(h, pks) == Err(MissingPK(pks[i]))
    decreases |pks| - i
  {
    assert pks[..i + 1][..i] == pks[..i] && pks[..i + 1][i] == pks[i];
    if i + 1 < |pks| {
      PkNumbersErrKeeps(h, pks, i + 1);
    } else {
      assert pks[..i + 1] == pks;
    }
  }

  /** Once a prefix of the key columns fails, every longer prefix fails with the same error. */
  lemma {:induction false} PkNumbersErrKeeps(h: seq<Value>, pks: seq<string>, n: nat)
    requires 0 < n <= |pks| && PkNumbers(h, pks[..n]).Err?
    ensures PkNumbers(h, pks) == PkNumbers(h, pks[..n])
    decreases |pks| - n
  {
    if n < |pks| {
      assert pks[..n + 1][..n] == pks[..n];
      PkNumbersErrKeeps(h, pks, n + 1);
    } else {
      assert pks[..n] == pks;
    }
  }

  /** The scan of rows 2 to max_row, each row's key tuple mapped to its row number. */
  method IndexRows(g: Grid, pk: seq<int>) returns (index: map<seq<Value>, int>)
    ensures index == IndexUpTo(g, pk, g.maxRow)
  {
    index := map[];
    var rownum := 2;
    while rownum <= g.maxRow
      invariant 2 <= rownum && (rownum <= g.maxRow + 1 || rownum == 2)
      invariant index == IndexUpTo(g, pk, rownum - 1)
      decreases g.maxRow - rownum
    {
      index := index[RowKey(g, rownum, pk) := rownum];
      rownum := rownum + 1;
    }
  }

  /** IndexOneWorksheet: the header scan for the mapped columns, the pruning of the formula
      columns, the header scan for the key columns and the row scan filling the key index; the
      ready flag is set True only after the last row. */
  method IndexOneWorksheet(tablename: string, ws: Worksheet, spec: TableSpec)
    requires spec.cols.Valid()
    modifies ws
    ensures Indexed(old(ws.Snap()), ws.Snap(), spec)
  {
    var g := ws.grid;
    var hdrs := Headers(g);
    assert |hdrs| == g.maxCol || (g.maxCol < 0 && Range(g.maxCol) == [] && Range(|hdrs|) == []);
    var cn, fc := MapColumns(hdrs, spec.cols.keys);
    ws.formulaCols := fc;
    if cn.Err? {
      return;
    }
    ws.colnbrs := cn.value;
    ws.formulaCols := PruneFormulaCols(g, ws.formulaCols);
    var pk := KeyColumns(hdrs, spec.pkCols.keys);
    if pk.Err? {
      return;
    }
    ws.pkIndex := IndexRows(g, pk.value);
    ws.ready := Some(true);
  }

  lemma {:induction false} WithoutNone(s: seq<int>)
    ensures Without(s, []) == s
    decreases |s|
  {
    if s != [] {
      WithoutNone(s[1..]);
    }
  }

  // ---------------------------------------------------------------------------------------------
  // IndexAllWorksheets

  /** The (table, specification) pairs of one list, in table order. */
  function ListPairs(ts: Tables, names: seq<string>): (r: seq<(string, TableSpec)>)
    requires forall n <- names :: n in ts.vals
    ensures |r| == |names| && forall i :: 0 <= i < |names| ==> r[i] == (names[i], ts.vals[names[i]].spec)
  {
    seq(|names|, i requires 0 <= i < |names| => (names[i], ts.vals[names[i]].spec))
  }

  /** The well-formed registry the index pass walks: each list's tables in insertion order. */
  ghost predicate RegistryOk(reg: Registry)
  {
    reg.Valid() && forall l <- reg.vals.Keys :: reg.vals[l].Valid() && forall t <- reg.vals[l].vals.Keys :: reg.vals[l].vals[t].spec.cols.Valid()
  }

  /** The pairs the nested loop of IndexAllWorksheets visits for the lists ls, in order. */
  function RegPairs(reg: Registry, ls: seq<string>): seq<(string, TableSpec)>
    requires reg.Valid() && forall l <- reg.vals.Keys :: reg.vals[l].Valid()
    requires forall l <- ls :: l in reg.vals
    decreases |ls|
  {
    if ls == [] then []
    else
      var ts := reg.vals[ls[|ls| - 1]];
      RegPairs(reg, ls[..|ls| - 1]) + ListPairs(ts, ts.keys)
  }

  /** The specification of the first pair naming table n. */
  function FirstSpec(ps: seq<(string, TableSpec)>, n: string): Option<TableSpec>
    decreases |ps|
  {
    if ps == [] then None
    else
      var f := FirstSpec(ps[..|ps| - 1], n);
      if f.Some? then f else if ps[|ps| - 1].0 == n then Some(ps[|ps| - 1].1) else None
  }

  /** What the pass does to a worksheet met for a table with specification spec: one with the
      ready flag already set, or with no rows, is left alone; otherwise the flag is set False
      and the index built. */
  ghost predicate Started(s0: SheetState, s1: SheetState, spec: TableSpec)
  {
    if s0.ready.Some? || s0.grid.maxRow <= 0 then s1 == s0
    else Indexed(s0.(ready := Some(false)), s1, spec)
  }

  /** After the pairs ps, the worksheet named n is built from the first specification naming it,
      or untouched when none does. */
  ghost predicate IndexedBy(s0: SheetState, s1: SheetState, ps: seq<(string, TableSpec)>, n: string)
  {
    match FirstSpec(ps, n)
    case None => s1 == s0
    case Some(spec) => Started(s0, s1, spec)
  }

  /** No two sheet names share a worksheet object. */
  ghost predicate Separate(wb: map<string, Worksheet>)
  {
    forall a <- wb.Keys, b <- wb.Keys :: a != b ==> wb[a] != wb[b]
  }

  lemma {:induction false} FirstSpecSnoc(ps: seq<(string, TableSpec)>, p: (string, TableSpec), n: string)
    ensures FirstSpec(ps + [p], n) == if FirstSpec(ps, n).Some? then FirstSpec(ps, n) else if p.0 == n then Some(p.1) else None
  {
    assert (ps + [p])[..|ps|] == ps;
  }

  /** A worksheet the pass does not touch keeps what it had for the pairs before. */
  lemma {:induction false} IndexedBySnoc(s0: SheetState, s1: SheetState, ps: seq<(string, TableSpec)>, p: (string, TableSpec), n: string)
    requires IndexedBy(s0, s1, ps, n) && (p.0 != n || FirstSpec(ps, n).Some?)
    ensures IndexedBy(s0, s1, ps + [p], n)
  {
    FirstSpecSnoc(ps, p, n);
  }

  /** One step of the nested loop: the worksheet named t, if any, is started for spec. */
  method StartOne(wb: map<string, Worksheet>, t: string, spec: TableSpec,
                  ghost init: map<string, SheetState>, ghost ps: seq<(string, TableSpec)>)
    requires Separate(wb) && spec.cols.Valid() && init.Keys == wb.Keys
    requires forall n <- wb.Keys :: IndexedBy(init[n], wb[n].Snap(), ps, n)
    modifies wb.Values
    ensures forall n <- wb.Keys :: IndexedBy(init[n], wb[n].Snap(), ps + [(t, spec)], n)
  {
    ghost var before := map n | n in wb :: wb[n].Snap();
    forall n <- wb.Keys | n != t
      ensures IndexedBy(init[n], before[n], ps + [(t, spec)], n)
    {
      IndexedBySnoc(init[n], before[n], ps, (t, spec), n);
    }
    if t in wb {
      var ws := wb[t];
      FirstSpecSnoc(ps, (t, spec), t);
      if ws.ready.None? && ws.grid.maxRow > 0 {
        ws.ready := Some(false);
        IndexOneWorksheet(t, ws, spec);
      } else {
        assert IndexedBy(init[t], wb[t].Snap(), ps + [(t, spec)], t);
      }
      assert forall n <- wb.Keys :: n != t ==> wb[n].Snap() == before[n];
    }
  }

  /** The inner loop of IndexAllWorksheets over the tables of one list. */
  method IndexList(ts: Tables, wb: map<string, Worksheet>, ghost init: map<string, SheetState>, ghost ps: seq<(string, TableSpec)>)
    requires ts.Valid() && (forall t <- ts.vals.Keys :: ts.vals[t].spec.cols.Valid())
    requires Separate(wb) && init.Keys == wb.Keys
    requires forall n <- wb.Keys :: IndexedBy(init[n], wb[n].Snap(), ps, n)
    modifies wb.Values
    ensures forall n <- wb.Keys :: IndexedBy(init[n], wb[n].Snap(), ps + ListPairs(ts, ts.keys), n)
  {
    ghost var done := ps;
    for j := 0 to |ts.keys|
      invariant done == ps + ListPairs(ts, ts.keys[..j])
      invariant forall n <- wb.Keys :: IndexedBy(init[n], wb[n].Snap(), done, n)
    {
      var t := ts.keys[j];
      var spec := ts.vals[t].spec;
      StartOne(wb, t, spec, init, done);
      assert ListPairs(ts, ts.keys[..j + 1]) == ListPairs(ts, ts.keys[..j]) + [(t, spec)];
      done := done + [(t, spec)];
    }
    assert ts.keys[..|ts.keys|] == ts.keys;
  }

  /** IndexAllWorksheets: every worksheet a table of the registry names is indexed once, for the
      first list naming it, with the ready flag False until its build succeeds; the index is
      built in line where the source starts a thread. */
  method IndexAllWorksheets(reg: Registry, wb: map<string, Worksheet>)
    requires RegistryOk(reg) && Separate(wb)
    modifies wb.Values
    ensures forall n <- wb.Keys :: IndexedBy(old(wb[n].Snap()), wb[n].Snap(), RegPairs(reg, reg.keys), n)
  {
    ghost var init := map n | n in wb :: wb[n].Snap();
    ghost var ps: seq<(string, TableSpec)> := [];
    for i := 0 to |reg.keys|
      invariant ps == RegPairs(reg, reg.keys[..i])
      invariant forall n <- wb.Keys :: IndexedBy(init[n], wb[n].Snap(), ps, n)
    {
      var ts := reg.vals[reg.keys[i]];
      IndexList(ts, wb, init, ps);
      assert reg.keys[..i + 1][..i] == reg.keys[..i] && reg.keys[..i + 1][i] == reg.keys[i];
      ps := ps + ListPairs(ts, ts.keys);
    }
    assert reg.keys[..|reg.keys|] == reg.keys;
  }
}
