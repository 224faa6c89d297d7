/** Character classes and string helpers shared by the casting, mapping and sink modules.
    \d, \w and str.upper() are taken on ASCII (Python's are Unicode-aware); \s is Python's full
    whitespace set. */
module Strs {
  import opened Wrappers

  predicate IsDigit(c: char) { '0' <= c <= '9' }

  predicate IsLetter(c: char) { 'a' <= c <= 'z' || 'A' <= c <= 'Z' }

  /** Regular expression \w. */
  predicate IsWordChar(c: char) { IsLetter(c) || IsDigit(c) || c == '_' }

  /** Regular expression \s: the characters for which str.isspace() holds. */
  predicate IsSpace(c: char) {
    || c == ' ' || '\t' <= c <= '\r' || '\U{1C}' <= c <= '\U{1F}' || c == '\U{85}' || c == '\U{A0}'
    || c == '\U{1680}' || '\U{2000}' <= c <= '\U{200A}' || c == '\U{2028}' || c == '\U{2029}'
    || c == '\U{202F}' || c == '\U{205F}' || c == '\U{3000}'
  }

  /** str.startswith. */
  predicate StartsWith(s: string, p: string) { |p| <= |s| && s[..|p|] == p }

  /** Every character is a word character. */
  predicate AllWord(s: string) { forall i :: 0 <= i < |s| ==> IsWordChar(s[i]) }

  predicate AllDigits(s: string) { forall i :: 0 <= i < |s| ==> IsDigit(s[i]) }

  function UpperChar(c: char): char {
    if 'a' <= c <= 'z' then (c as int - 'a' as int + 'A' as int) as char else c
  }

  /** str.upper() on ASCII letters. */
  function Upper(s: string): (r: string)
    ensures |r| == |s|
    ensures forall i :: 0 <= i < |s| ==> r[i] == UpperChar(s[i])
  {
    if s == [] then [] else [UpperChar(s[0])] + Upper(s[1..])
  }

  function DigitValue(c: char): nat
    requires IsDigit(c)
  {
    c as int - '0' as int
  }

  /** int(s) for a string of decimal digits. */
  function DigitsValue(s: string): nat
    requires AllDigits(s)
    decreases |s|
  {
    if s == [] then 0 else DigitsValue(s[..|s| - 1]) * 10 + DigitValue(s[|s| - 1])
  }

  /** str(n): the decimal digits of n without leading zeros. */
  function NatToStr(n: nat): (r: string)
    ensures |r| > 0 && AllDigits(r)
    ensures DigitsValue(r) == n
    ensures n > 0 ==> r[0] != '0'
    ensures n < 10 <==> |r| == 1
  {
    if n < 10 then ['0' + n as char]
    else
      var p := NatToStr(n / 10);
      var r := p + ['0' + (n % 10) as char];
      assert r[..|r| - 1] == p;
      r
  }

  function Zeros(n: nat): (r: string)
    ensures |r| == n && AllDigits(r)
    ensures forall i :: 0 <= i < n ==> r[i] == '0'
  {
    if n == 0 then [] else ['0'] + Zeros(n - 1)
  }

  /** Zero-padding on the left to width w, as the format width of `{:0wd}`. */
  function ZeroPad(s: string, w: nat): (r: string)
    ensures |r| == if |s| >= w then |s| else w
    ensures AllDigits(s) ==> AllDigits(r)
    ensures r[|r| - |s|..] == s
  {
    if |s| >= w then s else Zeros(w - |s|) + s
  }

  /** sep.join(xs). */
  function Join(xs: seq<string>, sep: string): string
  {
    if xs == [] then ""
    else if |xs| == 1 then xs[0]
    else xs[0] + sep + Join(xs[1..], sep)
  }

  /** s.split(sep) for a one-character separator. */
  function Split(s: string, sep: char): (r: seq<string>)
    ensures |r| > 0
    ensures forall i :: 0 <= i < |r| ==> sep !in r[i]
  {
    if s == [] then [""]
    else
      var rest := Split(s[1..], sep);
      if s[0] == sep then [""] + rest else [[s[0]] + rest[0]] + rest[1..]
  }

  lemma {:induction false} SplitJoin(xs: seq<string>, sep: char)
    requires |xs| > 0
    requires forall i :: 0 <= i < |xs| ==> sep !in xs[i]
    ensures Split(Join(xs, [sep]), sep) == xs
    decreases |xs|, |xs[0]|
  {
    if |xs| == 1 {
      SplitNoSep(xs[0], sep);
    } else {
      SplitJoin(xs[1..], sep);
      SplitPrefix(xs[0], [sep] + Join(xs[1..], [sep]), sep);
      assert xs[0] + [sep] + Join(xs[1..], [sep]) == xs[0] + ([sep] + Join(xs[1..], [sep]));
      assert ([sep] + Join(xs[1..], [sep]))[1..] == Join(xs[1..], [sep]);
      assert [xs[0]] + xs[1..] == xs;
    }
  }

  lemma {:induction false} SplitNoSep(s: string, sep: char)
    requires sep !in s
    ensures Split(s, sep) == [s]
  {
    if s != [] {
      SplitNoSep(s[1..], sep);
      assert [s[0]] + s[1..] == s;
    }
  }

  /** Splitting a + t, where a holds no separator and t starts with one. */
  lemma {:induction false} SplitPrefix(a: string, t: string, sep: char)
    requires sep !in a
    requires |t| > 0 && t[0] == sep
    ensures Split(a + t, sep) == [a] + Split(t[1..], sep)
  {
    if a == [] {
      assert a + t == t;
    } else {
      SplitPrefix(a[1..], t, sep);
      assert (a + t)[1..] == a[1..] + t;
      assert [a[0]] + a[1..] == a;
    }
  }

  /** s.replace(c, r) for a one-character pattern. */
  function ReplaceChar(s: string, c: char, r: string): (o: string)
    ensures c !in s ==> o == s
  {
    if s == [] then [] else (if s[0] == c then r else [s[0]]) + ReplaceChar(s[1..], c, r)
  }

  /** s.replace(q, q + q): every q doubled. */
  function Double(s: string, q: char): (r: string)
    ensures |r| >= |s|
  {
    if s == [] then [] else (if s[0] == q then [q, q] else [s[0]]) + Double(s[1..], q)
  }

  lemma {:induction false} DoubleIsReplace(s: string, q: char)
    ensures Double(s, q) == ReplaceChar(s, q, [q, q])
  {
    if s != [] { DoubleIsReplace(s[1..], q); }
  }

  /** Inverse of Double: a pair q q becomes one q. None when a q stands alone. */
  function Undouble(s: string, q: char): Option<string>
  {
    if s == [] then Some([])
    else if s[0] != q then
      match Undouble(s[1..], q)
      case Some(t) => Some([s[0]] + t)
      case None => None
    else if |s| >= 2 && s[1] == q then
      match Undouble(s[2..], q)
      case Some(t) => Some([q] + t)
      case None => None
    else None
  }

  lemma {:induction false} UndoubleDouble(s: string, q: char)
    ensures Undouble(Double(s, q), q) == Some(s)
  {
    if s != [] {
      UndoubleDouble(s[1..], q);
      var d := Double(s, q);
      if s[0] == q {
        assert d[2..] == Double(s[1..], q);
      } else {
        assert d[1..] == Double(s[1..], q);
      }
      assert [s[0]] + s[1..] == s;
    }
  }

  // ---------------------------------------------------------------------------------------------
  // re.findall(r'[^\s,]+', s): the comma- or blank-separated items of a configuration line

  predicate IsTokenChar(c: char) { !IsSpace(c) && c != ',' }

  predicate AllTokenChars(s: string) { forall i :: 0 <= i < |s| ==> IsTokenChar(s[i]) }

  /** Length of the longest prefix made of token characters. */
  function TokenRun(s: string): (n: nat)
    ensures n <= |s|
  {
    if s == [] || !IsTokenChar(s[0]) then 0 else 1 + TokenRun(s[1..])
  }

  lemma {:induction false} TokenRunChars(s: string)
    ensures AllTokenChars(s[..TokenRun(s)])
    ensures TokenRun(s) < |s| ==> !IsTokenChar(s[TokenRun(s)])
  {
    if s != [] && IsTokenChar(s[0]) {
      TokenRunChars(s[1..]);
      assert s[..TokenRun(s)] == [s[0]] + s[1..][..TokenRun(s[1..])];
    }
  }

  /** The maximal runs of token characters, left to right. */
  function Tokens(s: string): seq<string>
    decreases |s|
  {
    if s == [] then []
    else if !IsTokenChar(s[0]) then Tokens(s[1..])
    else var n := TokenRun(s); [s[..n]] + Tokens(s[n..])
  }

  lemma {:induction false} TokensShape(s: string)
    ensures forall i :: 0 <= i < |Tokens(s)| ==> Tokens(s)[i] != [] && AllTokenChars(Tokens(s)[i])
    decreases |s|
  {
    if s == [] {
    } else if !IsTokenChar(s[0]) {
      TokensShape(s[1..]);
    } else {
      TokenRunChars(s);
      TokensShape(s[TokenRun(s)..]);
    }
  }

  predicate IsToken(t: string) { t != [] && AllTokenChars(t) }

  lemma {:induction false} TokenRunOf(a: string, t: string)
    requires AllTokenChars(a)
    requires t == [] || !IsTokenChar(t[0])
    ensures TokenRun(a + t) == |a|
  {
    if a != [] {
      assert (a + t)[1..] == a[1..] + t;
      TokenRunOf(a[1..], t);
    } else {
      assert a + t == t;
    }
  }

  /** Tokens skips any number of separator characters. */
  lemma {:induction false} TokensSkip(pre: string, t: string)
    requires forall i :: 0 <= i < |pre| ==> !IsTokenChar(pre[i])
    ensures Tokens(pre + t) == Tokens(t)
  {
    if pre != [] {
      assert (pre + t)[1..] == pre[1..] + t;
      TokensSkip(pre[1..], t);
    } else {
      assert pre + t == t;
    }
  }

  lemma {:induction false} TokensCons(a: string, t: string)
    requires IsToken(a)
    requires t == [] || !IsTokenChar(t[0])
    ensures Tokens(a + t) == [a] + Tokens(t)
  {
    TokenRunOf(a, t);
    assert (a + t)[..|a|] == a;
    assert (a + t)[|a|..] == t;
  }

  /** Splitting a joined list of items gives the items back, whatever separator characters they
      were joined with (the message of the four-items check joins them with ", "). */
  lemma {:induction false} TokensJoin(xs: seq<string>, sep: string)
    requires forall i :: 0 <= i < |xs| ==> IsToken(xs[i])
    requires sep != [] && forall i :: 0 <= i < |sep| ==> !IsTokenChar(sep[i])
    ensures Tokens(Join(xs, sep)) == xs
  {
    if xs == [] {
    } else if |xs| == 1 {
      TokensCons(xs[0], []);
      assert xs[0] + [] == xs[0];
    } else {
      var rest := Join(xs[1..], sep);
      TokensJoin(xs[1..], sep);
      assert xs[0] + sep + rest == xs[0] + (sep + rest);
      TokensCons(xs[0], sep + rest);
      TokensSkip(sep, rest);
      assert [xs[0]] + xs[1..] == xs;
    }
  }

  // ---------------------------------------------------------------------------------------------
  // re.sub(r'^.*?(\w+)$', r'\1', s): the final word of a list path

  /** Length of the longest suffix made of word characters. */
  function WordSuffix(s: string): (n: nat)
    ensures n <= |s|
  {
    if s == [] || !IsWordChar(s[|s| - 1]) then 0 else 1 + WordSuffix(s[..|s| - 1])
  }

  lemma {:induction false} WordSuffixShape(s: string)
    ensures forall i :: |s| - WordSuffix(s) <= i < |s| ==> IsWordChar(s[i])
    ensures WordSuffix(s) < |s| ==> !IsWordChar(s[|s| - WordSuffix(s) - 1])
    decreases |s|
  {
    if s != [] && IsWordChar(s[|s| - 1]) {
      var p := s[..|s| - 1];
      WordSuffixShape(p);
      assert forall i :: 0 <= i < |p| ==> p[i] == s[i];
    }
  }

  /** The final word of s. `.` does not cross a newline and `$` also matches before one final
      newline, so a text with an inner newline, or whose body does not end in a word character,
      comes back unchanged; a body ending in a word keeps its final newline. */
  function FinalWord(s: string): (r: string)
    ensures '\n' !in s && WordSuffix(s) > 0 ==> r == s[|s| - WordSuffix(s)..]
    ensures '\n' !in s && WordSuffix(s) == 0 ==> r == s
  {
    var body := if |s| > 0 && s[|s| - 1] == '\n' then s[..|s| - 1] else s;
    assert '\n' !in s ==> body == s && s[|body|..] == [];
    var n := WordSuffix(body);
    if '\n' in body || n == 0 then s else body[|body| - n..] + s[|body|..]
  }

  // ---------------------------------------------------------------------------------------------
  // Python's ordering of str values: code point by code point

  predicate LexLe(a: string, b: string)
  {
    if a == [] then true
    else if b == [] then false
    else if a[0] != b[0] then a[0] < b[0]
    else LexLe(a[1..], b[1..])
  }

  lemma {:induction false} LexRefl(a: string)
    ensures LexLe(a, a)
  {
    if a != [] { LexRefl(a[1..]); }
  }

  lemma {:induction false} LexTotal(a: string, b: string)
    ensures LexLe(a, b) || LexLe(b, a)
  {
    if a != [] && b != [] && a[0] == b[0] {
      LexTotal(a[1..], b[1..]);
    }
  }

  lemma {:induction false} LexAntisym(a: string, b: string)
    requires LexLe(a, b) && LexLe(b, a)
    ensures a == b
  {
    if a != [] && b != [] {
      LexAntisym(a[1..], b[1..]);
      assert a == [a[0]] + a[1..] && b == [b[0]] + b[1..];
    }
  }

  lemma {:induction false} LexTrans(a: string, b: string, c: string)
    requires LexLe(a, b) && LexLe(b, c)
    ensures LexLe(a, c)
  {
    if a != [] && b != [] && c != [] && a[0] == b[0] && b[0] == c[0] {
      LexTrans(a[1..], b[1..], c[1..]);
    }
  }
}
