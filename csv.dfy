/** CSVWriter.py: at the end of each OFX list, every table of the list is written to
    <directory>/<table>.csv, one line per record, optionally preceded by a header line. */
module Csv {
  import opened Wrappers
  import opened Values
  import opened Strs
  import opened Dicts
  import opened Compiler
  import opened Accumulator

  /** The answers that switch on the header line and the Excel-compatible strings. */
  const Yes: seq<string> := ["YES", "Y", "TRUE", "T", "ENABLED"]

  /** The sink's settings. quoteChar and colChar are the first characters of the QuoteChar and
      ColumnSeparator settings. dateLike stands for the date regular expression of the
      Excel-compatible branch (months as numbers or names, with or without a year). */
  datatype CsvConfig = CsvConfig(saveDir: string, includeHeader: string, quoteRule: string,
                                 excelStrings: string, quoteChar: char, colChar: char,
                                 dateLike: string -> bool)

  datatype ConfigError = MissingSetting(key: string) | EmptySetting(key: string)

  /** The required settings, in the order CSVWriter.__init__ reads them. */
  const Required: seq<string> := ["WhenToQuote", "ExcelCompatibility", "QuoteChar", "ColumnSeparator"]

  /** A required setting is present, and a character setting is non-empty. */
  predicate SettingOk(plist: map<string, string>, key: string)
  {
    key in plist && (key in ["QuoteChar", "ColumnSeparator"] ==> plist[key] != [])
  }

  /** CSVWriter.__init__ on the settings dict: WriteToDirectory defaults to ".", Headers to "NO";
      the other four must be present (KeyError), and the two character settings non-empty
      (IndexError). */
  function ConfigOf(plist: map<string, string>, dateLike: string -> bool): (r: Result<CsvConfig, ConfigError>)
    ensures r.Ok? <==>
      && "WhenToQuote" in plist && "ExcelCompatibility" in plist
      && "QuoteChar" in plist && plist["QuoteChar"] != []
      && "ColumnSeparator" in plist && plist["ColumnSeparator"] != []
    ensures r.Ok? ==>
      && r.value.saveDir == (if "WriteToDirectory" in plist then plist["WriteToDirectory"] else ".")
      && r.value.includeHeader == (if "Headers" in plist then plist["Headers"] else "NO")
      && r.value.quoteChar == plist["QuoteChar"][0] && r.value.colChar == plist["ColumnSeparator"][0]
      && r.value.quoteRule == plist["WhenToQuote"] && r.value.excelStrings == plist["ExcelCompatibility"]
      && r.value.dateLike == dateLike
    ensures r.Err? ==>
      && r.error.key in Required && !SettingOk(plist, r.error.key)
      && forall j :: 0 <= j < |Required| && !SettingOk(plist, Required[j]) ==> r.error.key in Required[..j + 1]
    ensures r.Err? && r.error.MissingSetting? ==> r.error.key !in plist
    ensures r.Err? && r.error.EmptySetting? ==> r.error.key in plist && plist[r.error.key] == []
  {
    var dir := if "WriteToDirectory" in plist then plist["WriteToDirectory"] else ".";
    var hdr := if "Headers" in plist then plist["Headers"] else "NO";
    if "WhenToQuote" !in plist then Err(MissingSetting("WhenToQuote"))
    else if "ExcelCompatibility" !in plist then Err(MissingSetting("ExcelCompatibility"))
    else if "QuoteChar" !in plist then Err(MissingSetting("QuoteChar"))
    else if plist["QuoteChar"] == [] then Err(EmptySetting("QuoteChar"))
    else if "ColumnSeparator" !in plist then Err(MissingSetting("ColumnSeparator"))
    else if plist["ColumnSeparator"] == [] then Err(EmptySetting("ColumnSeparator"))
    else Ok(CsvConfig(dir, hdr, plist["WhenToQuote"], plist["ExcelCompatibility"],
                      plist["QuoteChar"][0], plist["ColumnSeparator"][0], dateLike))
  }

  predicate ExcelOn(cfg: CsvConfig) { Upper(cfg.excelStrings) in Yes }

  /** The header setting is compared as written, not upper-cased. */
  predicate HeaderOn(cfg: CsvConfig) { cfg.includeHeader in Yes }

  // ---------------------------------------------------------------------------------------------
  // The first regular expression of the Excel-compatible branch, with re.I:
  //   ^\s*( .*C.* | [+-]?(\d*\.\d+|\d+.?)(E\d+)? )$      where C is the separator character

  /** Character equality under re.I (ASCII letters). */
  predicate SameLetter(a: char, b: char) { UpperChar(a) == UpperChar(b) }

  predicate AllSpace(s: string) { forall i :: 0 <= i < |s| ==> IsSpace(s[i]) }

  /** Where $ may match: at the end, or just before a final newline. */
  predicate AtEnd(s: string, e: nat) { e == |s| || (e + 1 == |s| && s[e] == '\n') }

  /** .*C.*: the separator at some position, and no newline anywhere else. */
  predicate SepPart(t: string, c: char)
  {
    exists i :: 0 <= i < |t| && SameLetter(t[i], c) && forall j :: 0 <= j < |t| && j != i ==> t[j] != '\n'
  }

  /** \d*\.\d+ or \d+.? (the unescaped dot is any character but a newline). */
  predicate Mantissa(t: string)
  {
    || (exists i :: 0 <= i < |t| - 1 && t[i] == '.' && AllDigits(t[..i]) && AllDigits(t[i + 1..]))
    || (|t| > 0 && AllDigits(t))
    || (|t| >= 2 && AllDigits(t[..|t| - 1]) && t[|t| - 1] != '\n')
  }

  /** E\d+, either case. */
  predicate Exponent(t: string) { |t| >= 2 && SameLetter(t[0], 'E') && AllDigits(t[1..]) }

  /** [+-]?(mantissa)(exponent)? */
  predicate Number(t: string)
  {
    var u := if |t| > 0 && (t[0] == '+' || t[0] == '-') then t[1..] else t;
    exists j :: 0 <= j <= |u| && Mantissa(u[..j]) && (j == |u| || Exponent(u[j..]))
  }

  /** re.search of the whole expression: a whitespace prefix, then the separator part or a number
      up to where $ matches. */
  predicate NumberOrSep(s: string, c: char)
  {
    exists k, e :: 0 <= k <= e <= |s| && AtEnd(s, e) && AllSpace(s[..k]) && (SepPart(s[k..e], c) || Number(s[k..e]))
  }

  // ---------------------------------------------------------------------------------------------
  // FieldtoStr

  /** '="{0}"'.format(s.replace('"', '""')): a formula Excel shows as the text s. */
  function Formula(s: string): string { "=\"" + Double(s, '"') + "\"" }

  /** "{1}{0}{1}".format(s.replace(q, q + q), q). */
  function Quote(s: string, q: char): string { [q] + Double(s, q) + [q] }

  /** A str field after the Excel-compatible step: wrapped when it looks like a number, holds the
      separator, looks like a date or is TRUE or FALSE; unchanged otherwise or when the setting
      is off. */
  function ExcelStage(s: string, cfg: CsvConfig): string
  {
    if !ExcelOn(cfg) then s
    else if NumberOrSep(s, cfg.colChar) then Formula(s)
    else if cfg.dateLike(s) then Formula(s)
    else if s in ["TRUE", "FALSE"] then Formula(s)
    else s
  }

  /** A str field is enclosed in quotes when it holds the separator or every string is quoted. */
  predicate Quoted(v: Value, cfg: CsvConfig)
  {
    v.Str? && (cfg.colChar in ExcelStage(v.s, cfg) || cfg.quoteRule == "AllStrings")
  }

  /** {:0wd} on a datetime field (its fields are never negative). */
  function Pad(n: int, w: nat): string { ZeroPad(NatToStr(if n < 0 then 0 else n), w) }

  /** a x b x c: three parts and two one-character separators. */
  function Parts(a: string, b: string, c: string, x: char): string { a + [x] + b + [x] + c }

  /** "{0:%Y-%m-%d}". */
  function DayText(t: DateTime): string { Parts(Pad(t.year, 4), Pad(t.month, 2), Pad(t.day, 2), '-') }

  /** " {0:%H:%M:%S}". */
  function ClockText(t: DateTime): string { " " + Parts(Pad(t.hour, 2), Pad(t.minute, 2), Pad(t.second, 2), ':') }

  /** The date, then the time unless it is exactly midnight. */
  function DateText(t: DateTime): string { DayText(t) + (if t.IsMidnight() then "" else ClockText(t)) }

  /** The text of one field. A str field that holds the separator is always enclosed in quotes. */
  function FieldtoStr(v: Value, cfg: CsvConfig): (r: string)
    ensures v.Null? ==> r == []
    ensures v.Str? && cfg.colChar in r ==> |r| >= 2 && r[0] == cfg.quoteChar && r[|r| - 1] == cfg.quoteChar
  {
    match v
    case Null => ""
    case Dec(t) => t
    case Bool(b) => if b then "True" else "False"
    case Time(t) => DateText(t)
    case Str(s) =>
      var st := ExcelStage(s, cfg);
      if cfg.colChar in st || cfg.quoteRule == "AllStrings" then Quote(st, cfg.quoteChar) else st
  }

  /** What a field stands for: the str after the Excel step, or the text of any other value. */
  function Content(v: Value, cfg: CsvConfig): string
  {
    if v.Str? then ExcelStage(v.s, cfg) else FieldtoStr(v, cfg)
  }

  /** Excel off and quoting only where needed: a str without the separator is written as is. */
  lemma {:induction false} PlainString(s: string, cfg: CsvConfig)
    requires !ExcelOn(cfg) && cfg.quoteRule != "AllStrings" && cfg.colChar !in s
    ensures FieldtoStr(Str(s), cfg) == s
  {
  }

  /** The Excel step changes a str exactly when one of its four tests holds. */
  lemma {:induction false} ExcelWraps(s: string, cfg: CsvConfig)
    requires ExcelOn(cfg)
    ensures ExcelStage(s, cfg) != s <==> NumberOrSep(s, cfg.colChar) || cfg.dateLike(s) || s in ["TRUE", "FALSE"]
    ensures ExcelStage(s, cfg) != s ==> ExcelStage(s, cfg) == Formula(s)
  {
    assert |Formula(s)| >= |s| + 3;
  }

  /** Digits (leading zeros included) are kept as text in Excel mode. */
  lemma {:induction false} DigitsWrapped(s: string, cfg: CsvConfig)
    requires ExcelOn(cfg) && s != [] && AllDigits(s)
    ensures ExcelStage(s, cfg) == Formula(s)
  {
    assert s[..0] == [] && s[0..|s|] == s && s[..|s|] == s;
    assert Mantissa(s);
    assert Number(s);
  }

  /** In Excel mode a one-line str holding the separator becomes a formula. */
  lemma {:induction false} SeparatorWrapped(s: string, cfg: CsvConfig)
    requires ExcelOn(cfg) && cfg.colChar in s && '\n' !in s
    ensures ExcelStage(s, cfg) == Formula(s)
  {
    var i :| 0 <= i < |s| && s[i] == cfg.colChar;
    assert s[..0] == [] && s[0..|s|] == s;
    assert SepPart(s, cfg.colChar);
  }

  /** The formula shows the original string: undoing the wrapper gives it back. */
  function Unformula(f: string): Option<string>
  {
    if |f| >= 3 && f[..2] == "=\"" && f[|f| - 1] == '"' then Undouble(f[2..|f| - 1], '"') else None
  }

  lemma {:induction false} FormulaRoundTrip(s: string)
    ensures Unformula(Formula(s)) == Some(s)
  {
    var f := Formula(s);
    assert f[2..|f| - 1] == Double(s, '"');
    UndoubleDouble(s, '"');
  }

  // ---------------------------------------------------------------------------------------------
  // The date text

  function Pow10(k: nat): nat { if k == 0 then 1 else 10 * Pow10(k - 1) }

  lemma {:induction false} NatToStrWidth(n: nat, k: nat)
    requires k >= 1 && n < Pow10(k)
    ensures |NatToStr(n)| <= k
  {
    if n >= 10 {
      NatToStrWidth(n / 10, k - 1);
    }
  }

  lemma {:induction false} ZerosValue(k: nat)
    ensures DigitsValue(Zeros(k)) == 0
  {
    if k > 0 {
      assert Zeros(k)[..k - 1] == Zeros(k - 1);
      ZerosValue(k - 1);
    }
  }

  lemma {:induction false} PaddedValue(k: nat, s: string)
    requires AllDigits(s)
    ensures AllDigits(Zeros(k) + s) && DigitsValue(Zeros(k) + s) == DigitsValue(s)
    decreases |s|
  {
    var t := Zeros(k) + s;
    if s == [] {
      assert t == Zeros(k);
      ZerosValue(k);
    } else {
      assert t[..|t| - 1] == Zeros(k) + s[..|s| - 1];
      PaddedValue(k, s[..|s| - 1]);
    }
  }

  /** A field below 10^w is written in exactly w digits that read back as the field. */
  lemma {:induction false} PadDigits(n: int, w: nat)
    requires w >= 1 && 0 <= n < Pow10(w)
    ensures |Pad(n, w)| == w && AllDigits(Pad(n, w)) && DigitsValue(Pad(n, w)) == n
  {
    var s := NatToStr(n);
    NatToStrWidth(n, w);
    if |s| < w {
      PaddedValue(w - |s|, s);
    }
  }

  lemma {:induction false} PartsSlices(a: string, b: string, c: string, x: char)
    ensures |Parts(a, b, c, x)| == |a| + |b| + |c| + 2
    ensures Parts(a, b, c, x)[..|a|] == a && Parts(a, b, c, x)[|a|] == x
    ensures Parts(a, b, c, x)[|a| + 1..|a| + 1 + |b|] == b && Parts(a, b, c, x)[|a| + 1 + |b|] == x
    ensures Parts(a, b, c, x)[|a| + 2 + |b|..] == c
  {
  }

  /** Three fields below 10^w1, 10^w2, 10^w3 read back from their places in the text. */
  predicate PartsHold(s: string, x: char, n1: int, w1: nat, n2: int, w2: nat, n3: int, w3: nat)
  {
    && |s| == w1 + w2 + w3 + 2 && s[w1] == x && s[w1 + 1 + w2] == x
    && AllDigits(s[..w1]) && DigitsValue(s[..w1]) == n1
    && AllDigits(s[w1 + 1..w1 + 1 + w2]) && DigitsValue(s[w1 + 1..w1 + 1 + w2]) == n2
    && AllDigits(s[w1 + 2 + w2..]) && DigitsValue(s[w1 + 2 + w2..]) == n3
  }

  /** Three digit strings joined by x read back from their places in the joined text. */
  lemma {:induction false} PartsRead(a: string, b: string, c: string, x: char, n1: int, n2: int, n3: int)
    requires AllDigits(a) && DigitsValue(a) == n1 && AllDigits(b) && DigitsValue(b) == n2
    requires AllDigits(c) && DigitsValue(c) == n3
    ensures PartsHold(Parts(a, b, c, x), x, n1, |a|, n2, |b|, n3, |c|)
  {
    PartsSlices(a, b, c, x);
  }

  lemma {:induction false} PaddedParts(n1: int, w1: nat, n2: int, w2: nat, n3: int, w3: nat, x: char)
    requires w1 >= 1 && 0 <= n1 < Pow10(w1) && w2 >= 1 && 0 <= n2 < Pow10(w2) && w3 >= 1 && 0 <= n3 < Pow10(w3)
    ensures PartsHold(Parts(Pad(n1, w1), Pad(n2, w2), Pad(n3, w3), x), x, n1, w1, n2, w2, n3, w3)
  {
    PadDigits(n1, w1);
    PadDigits(n2, w2);
    PadDigits(n3, w3);
    PartsRead(Pad(n1, w1), Pad(n2, w2), Pad(n3, w3), x, n1, n2, n3);
  }

  /** The date reads back: year, month and day at fixed places, then the time only when it is
      not midnight (the microseconds are not written). */
  lemma {:induction false} DateTextFields(t: DateTime)
    requires 0 <= t.year <= 9999 && 0 <= t.month <= 99 && 0 <= t.day <= 99
    requires 0 <= t.hour <= 99 && 0 <= t.minute <= 99 && 0 <= t.second <= 99
    ensures DateText(t)[..10] == DayText(t) && PartsHold(DayText(t), '-', t.year, 4, t.month, 2, t.day, 2)
    ensures t.IsMidnight() <==> |DateText(t)| == 10
    ensures !t.IsMidnight() ==>
      && DateText(t)[10] == ' ' && DateText(t)[11..] == ClockText(t)[1..]
      && PartsHold(ClockText(t)[1..], ':', t.hour, 2, t.minute, 2, t.second, 2)
  {
    assert Pow10(2) == 100 && Pow10(4) == 10000;
    PaddedParts(t.year, 4, t.month, 2, t.day, 2, '-');
    PaddedParts(t.hour, 2, t.minute, 2, t.second, 2, ':');
    var c := ClockText(t);
    assert c[1..] == Parts(Pad(t.hour, 2), Pad(t.minute, 2), Pad(t.second, 2), ':');
  }

  // ---------------------------------------------------------------------------------------------
  // Reading a CSV text back: the reference the written files are checked against. A field is
  // either quoted (pairs of quote characters stand for one, and the field ends at a lone quote)
  // or plain (up to the next separator or newline); a row ends at a newline outside quotes.

  /** A quoted field after its opening quote: its text and what follows the closing quote. */
  function ReadQuoted(s: string, q: char): (r: Option<(string, string)>)
    ensures r.Some? ==> |r.value.1| < |s|
    decreases |s|
  {
    if s == [] then None
    else if s[0] != q then
      match ReadQuoted(s[1..], q)
      case None => None
      case Some((t, rest)) => Some(([s[0]] + t, rest))
    else if |s| >= 2 && s[1] == q then
      match ReadQuoted(s[2..], q)
      case None => None
      case Some((t, rest)) => Some(([q] + t, rest))
    else Some(([], s[1..]))
  }

  function ReadPlain(s: string, sep: char): (r: (string, string))
    ensures r.0 + r.1 == s
    decreases |s|
  {
    if s == [] || s[0] == sep || s[0] == '\n' then ([], s)
    else
      var (t, rest) := ReadPlain(s[1..], sep);
      ([s[0]] + t, rest)
  }

  function ReadField(s: string, sep: char, q: char): (r: Option<(string, string)>)
    ensures r.Some? ==> |r.value.1| <= |s|
  {
    if s != [] && s[0] == q then ReadQuoted(s[1..], q) else Some(ReadPlain(s, sep))
  }

  /** One row: its fields and the text after its newline. */
  function ParseRow(s: string, sep: char, q: char): (r: Option<(seq<string>, string)>)
    ensures r.Some? ==> |r.value.1| < |s|
    decreases |s|
  {
    match ReadField(s, sep, q)
    case None => None
    case Some((f, rest)) =>
      if rest == [] then None
      else if rest[0] == '\n' then Some(([f], rest[1..]))
      else if rest[0] == sep then
        match ParseRow(rest[1..], sep, q)
        case None => None
        case Some((fs, after)) => Some(([f] + fs, after))
      else None
  }

  function ParseRows(s: string, sep: char, q: char): Option<seq<seq<string>>>
    decreases |s|
  {
    if s == [] then Some([])
    else
      match ParseRow(s, sep, q)
      case None => None
      case Some((row, rest)) =>
        match ParseRows(rest, sep, q)
        case None => None
        case Some(rows) => Some([row] + rows)
  }

  /** The separator, the quote character and the newline are three different characters. */
  predicate Distinct3(sep: char, q: char) { sep != q && sep != '\n' && q != '\n' }

  /** Text a reader takes as itself: no separator, no newline, no opening quote. */
  predicate Plain(x: string, sep: char, q: char) { sep !in x && '\n' !in x && (x == [] || x[0] != q) }

  /** enc is the written form of x: quoted, or x itself where that reads back. */
  predicate Encodes(enc: string, x: string, sep: char, q: char) { enc == Quote(x, q) || (enc == x && Plain(x, sep, q)) }

  lemma {:induction false} ReadQuotedDouble(s: string, rest: string, q: char)
    requires rest == [] || rest[0] != q
    ensures ReadQuoted(Double(s, q) + [q] + rest, q) == Some((s, rest))
  {
    var x := Double(s, q) + [q] + rest;
    if s == [] {
      assert x == [q] + rest;
    } else if s[0] == q {
      ReadQuotedDouble(s[1..], rest, q);
      assert x[2..] == Double(s[1..], q) + [q] + rest;
      assert [q] + s[1..] == s;
    } else {
      ReadQuotedDouble(s[1..], rest, q);
      assert x[1..] == Double(s[1..], q) + [q] + rest;
      assert [s[0]] + s[1..] == s;
    }
  }

  lemma {:induction false} ReadPlainOf(x: string, rest: string, sep: char)
    requires sep !in x && '\n' !in x
    requires rest == [] || rest[0] == sep || rest[0] == '\n'
    ensures ReadPlain(x + rest, sep) == (x, rest)
  {
    if x == [] {
      assert x + rest == rest;
    } else {
      ReadPlainOf(x[1..], rest, sep);
      assert (x + rest)[1..] == x[1..] + rest;
      assert [x[0]] + x[1..] == x;
    }
  }

  /** A written field followed by a separator, a newline or nothing reads back as its text. */
  lemma {:induction false} ReadFieldOf(enc: string, x: string, rest: string, sep: char, q: char)
    requires Distinct3(sep, q) && Encodes(enc, x, sep, q)
    requires rest == [] || rest[0] == sep || rest[0] == '\n'
    ensures ReadField(enc + rest, sep, q) == Some((x, rest))
  {
    if enc == Quote(x, q) {
      ReadQuotedDouble(x, rest, q);
      assert (enc + rest)[1..] == Double(x, q) + [q] + rest;
    } else {
      ReadPlainOf(x, rest, sep);
      if x == [] {
        assert enc + rest == rest;
      }
    }
  }

  /** A row joined with the separator and ended by a newline reads back as its fields. */
  lemma {:induction false} ParseRowJoin(encs: seq<string>, xs: seq<string>, after: string, sep: char, q: char)
    requires Distinct3(sep, q) && |encs| == |xs| > 0
    requires forall i :: 0 <= i < |xs| ==> Encodes(encs[i], xs[i], sep, q)
    ensures ParseRow(Join(encs, [sep]) + "\n" + after, sep, q) == Some((xs, after))
    decreases |encs|
  {
    var s := Join(encs, [sep]) + "\n" + after;
    if |encs| == 1 {
      ReadFieldOf(encs[0], xs[0], "\n" + after, sep, q);
      assert s == encs[0] + ("\n" + after);
      assert ("\n" + after)[1..] == after;
      assert xs == [xs[0]];
    } else {
      var tail := Join(encs[1..], [sep]) + "\n" + after;
      assert s == encs[0] + ([sep] + tail);
      ReadFieldOf(encs[0], xs[0], [sep] + tail, sep, q);
      assert ([sep] + tail)[1..] == tail;
      ParseRowJoin(encs[1..], xs[1..], after, sep, q);
      assert [xs[0]] + xs[1..] == xs;
    }
  }

  // ---------------------------------------------------------------------------------------------
  // The written text of a table

  function Fields(row: Record, cfg: CsvConfig): seq<string>
  {
    seq(|row|, i requires 0 <= i < |row| => FieldtoStr(row[i], cfg))
  }

  lemma FieldsSnoc(row: Record, i: nat, cfg: CsvConfig)
    requires i < |row|
    ensures Fields(row[..i + 1], cfg) == Fields(row[..i], cfg) + [FieldtoStr(row[i], cfg)]
  {
    var a, b := Fields(row[..i + 1], cfg), Fields(row[..i], cfg) + [FieldtoStr(row[i], cfg)];
    assert forall j :: 0 <= j < |a| ==> a[j] == b[j];
  }

  function Contents(row: Record, cfg: CsvConfig): seq<string>
  {
    seq(|row|, i requires 0 <= i < |row| => Content(row[i], cfg))
  }

  /** colchar.join(result) + "\n". */
  function RowLine(row: Record, cfg: CsvConfig): string { Join(Fields(row, cfg), [cfg.colChar]) + "\n" }

  function Lines(rows: seq<Record>, cfg: CsvConfig): string
  {
    if rows == [] then "" else RowLine(rows[0], cfg) + Lines(rows[1..], cfg)
  }

  /** The header row: the table's column names, written like str fields. */
  function HeaderRow(cols: seq<string>): Record
  {
    seq(|cols|, i requires 0 <= i < |cols| => Str(cols[i]))
  }

  /** The rows a table's file holds: the header when it is switched on, then every record. */
  function Rows(t: Table, cfg: CsvConfig): seq<Record>
  {
    (if HeaderOn(cfg) then [HeaderRow(t.spec.cols.keys)] else []) + t.records
  }

  function CsvText(t: Table, cfg: CsvConfig): string { Lines(Rows(t, cfg), cfg) }

  lemma {:induction false} LinesSnoc(rows: seq<Record>, row: Record, cfg: CsvConfig)
    ensures Lines(rows + [row], cfg) == Lines(rows, cfg) + RowLine(row, cfg)
    decreases |rows|
  {
    if rows == [] {
      assert [] + [row] == [row];
    } else {
      LinesSnoc(rows[1..], row, cfg);
      assert (rows + [row])[1..] == rows[1..] + [row];
    }
  }

  /** A quoted str field, followed by a separator, a newline or nothing, reads back as the text
      after the Excel step; an unquoted one never holds the separator. */
  lemma {:induction false} QuotedField(s: string, cfg: CsvConfig, rest: string)
    requires Distinct3(cfg.colChar, cfg.quoteChar)
    requires rest == [] || rest[0] == cfg.colChar || rest[0] == '\n'
    ensures Quoted(Str(s), cfg) ==>
      ReadField(FieldtoStr(Str(s), cfg) + rest, cfg.colChar, cfg.quoteChar) == Some((ExcelStage(s, cfg), rest))
    ensures !Quoted(Str(s), cfg) ==> cfg.colChar !in FieldtoStr(Str(s), cfg)
  {
    if Quoted(Str(s), cfg) {
      ReadFieldOf(FieldtoStr(Str(s), cfg), ExcelStage(s, cfg), rest, cfg.colChar, cfg.quoteChar);
    }
  }

  /** A value whose written field reads back as its content. */
  predicate Readable(v: Value, cfg: CsvConfig)
  {
    Encodes(FieldtoStr(v, cfg), Content(v, cfg), cfg.colChar, cfg.quoteChar)
  }

  /** None is always readable, and so is every quoted str; an unquoted str is readable exactly
      when it has no newline and does not open with the quote character. */
  lemma {:induction false} ReadableValues(v: Value, cfg: CsvConfig)
    ensures v.Null? ==> Readable(v, cfg)
    ensures Quoted(v, cfg) ==> Readable(v, cfg)
    ensures v.Str? && !Quoted(v, cfg) ==>
      (Readable(v, cfg) <==> '\n' !in Content(v, cfg) && (Content(v, cfg) == [] || Content(v, cfg)[0] != cfg.quoteChar))
  {
  }

  /** Quoting only where needed, a str that opens with the quote character is written bare, and
      its row cannot be read back. */
  lemma {:induction false} BareQuoteUnreadable(cfg: CsvConfig)
    requires !ExcelOn(cfg) && cfg.quoteRule != "AllStrings"
    requires Distinct3(cfg.colChar, cfg.quoteChar) && cfg.colChar != 'x' && cfg.quoteChar != 'x'
    ensures FieldtoStr(Str([cfg.quoteChar, 'x']), cfg) == [cfg.quoteChar, 'x']
    ensures ParseRow(RowLine([Str([cfg.quoteChar, 'x'])], cfg), cfg.colChar, cfg.quoteChar).None?
  {
    var q := cfg.quoteChar;
    var line := RowLine([Str([q, 'x'])], cfg);
    assert Fields([Str([q, 'x'])], cfg) == [[q, 'x']];
    assert line == [q, 'x', '\n'];
    assert ReadQuoted([], q).None?;
    assert ReadQuoted(['\n'], q).None?;
    assert ReadQuoted(['x', '\n'], q).None?;
    assert line[1..] == ['x', '\n'];
  }

  /** One record whose fields are all readable reads back as its contents. */
  lemma {:induction false} RowReadBack(r: Record, after: string, cfg: CsvConfig)
    requires Distinct3(cfg.colChar, cfg.quoteChar)
    requires |r| > 0 && forall v <- r :: Readable(v, cfg)
    ensures ParseRow(RowLine(r, cfg) + after, cfg.colChar, cfg.quoteChar) == Some((Contents(r, cfg), after))
  {
    forall i | 0 <= i < |r| ensures Encodes(Fields(r, cfg)[i], Contents(r, cfg)[i], cfg.colChar, cfg.quoteChar) {
      assert r[i] in r;
    }
    ParseRowJoin(Fields(r, cfg), Contents(r, cfg), after, cfg.colChar, cfg.quoteChar);
  }

  /** The contents of every row, in order. */
  function AllContents(rows: seq<Record>, cfg: CsvConfig): seq<seq<string>>
  {
    if rows == [] then [] else [Contents(rows[0], cfg)] + AllContents(rows[1..], cfg)
  }

  /** A row whose fields are all readable, and at least one. */
  predicate RowReadable(r: Record, cfg: CsvConfig) { |r| > 0 && forall v <- r :: Readable(v, cfg) }

  /** Every row of readable, non-empty records reads back as the records' contents. */
  lemma {:induction false} LinesReadBack(rows: seq<Record>, cfg: CsvConfig)
    requires Distinct3(cfg.colChar, cfg.quoteChar)
    requires forall r <- rows :: RowReadable(r, cfg)
    ensures ParseRows(Lines(rows, cfg), cfg.colChar, cfg.quoteChar) == Some(AllContents(rows, cfg))
    decreases |rows|
  {
    if rows != [] {
      var r, rest := rows[0], rows[1..];
      assert r in rows;
      RowReadBack(r, Lines(rest, cfg), cfg);
      forall r' <- rest ensures RowReadable(r', cfg) {
        assert r' in rows;
      }
      LinesReadBack(rest, cfg);
    }
  }

  /** A table's file reads back as its header (when switched on) and its records. */
  lemma {:induction false} CsvTextReadBack(t: Table, cfg: CsvConfig)
    requires Distinct3(cfg.colChar, cfg.quoteChar)
    requires HeaderOn(cfg) ==> RowReadable(HeaderRow(t.spec.cols.keys), cfg)
    requires forall r <- t.records :: RowReadable(r, cfg)
    ensures ParseRows(CsvText(t, cfg), cfg.colChar, cfg.quoteChar) == Some(AllContents(Rows(t, cfg), cfg))
  {
    var rows := Rows(t, cfg);
    forall r <- rows ensures RowReadable(r, cfg) {
      if r !in t.records {
        assert r == HeaderRow(t.spec.cols.keys);
      }
    }
    LinesReadBack(rows, cfg);
  }

  /** With every string quoted, each str and None is readable. */
  lemma {:induction false} AllStringsReadable(rec: Record, cfg: CsvConfig)
    requires cfg.quoteRule == "AllStrings"
    requires forall v <- rec :: v.Null? || v.Str?
    ensures forall v <- rec :: Readable(v, cfg)
  {
    forall v <- rec ensures Readable(v, cfg) {
      ReadableValues(v, cfg);
    }
  }

  // ---------------------------------------------------------------------------------------------
  // The writer

  /** "{0}/{1}.csv".format(savedir, table). */
  function CsvPath(dir: string, table: string): string { dir + "/" + table + ".csv" }

  lemma {:induction false} CsvPathInjective(dir: string, a: string, b: string)
    requires CsvPath(dir, a) == CsvPath(dir, b)
    ensures a == b
  {
    var pa, pb := CsvPath(dir, a), CsvPath(dir, b);
    assert |a| == |b|;
    assert pa[|dir| + 1..|dir| + 1 + |a|] == a;
    assert pb[|dir| + 1..|dir| + 1 + |b|] == b;
  }

  /** The files after the first i tables of ts are written (open with 'w+' replaces a file). */
  function WrittenUpTo(files: map<string, string>, ts: Tables, i: nat, cfg: CsvConfig): map<string, string>
    requires ts.Valid() && i <= |ts.keys|
  {
    if i == 0 then files
    else WrittenUpTo(files, ts, i - 1, cfg)[CsvPath(cfg.saveDir, ts.keys[i - 1]) := CsvText(ts.vals[ts.keys[i - 1]], cfg)]
  }

  /** Each of the first i tables has its own file, holding its text. */
  lemma {:induction false} WrittenTables(files: map<string, string>, ts: Tables, i: nat, cfg: CsvConfig)
    requires ts.Valid() && i <= |ts.keys|
    ensures forall j :: 0 <= j < i ==>
      && CsvPath(cfg.saveDir, ts.keys[j]) in WrittenUpTo(files, ts, i, cfg)
      && WrittenUpTo(files, ts, i, cfg)[CsvPath(cfg.saveDir, ts.keys[j])] == CsvText(ts.vals[ts.keys[j]], cfg)
  {
    if i > 0 {
      WrittenTables(files, ts, i - 1, cfg);
      var p := CsvPath(cfg.saveDir, ts.keys[i - 1]);
      forall j | 0 <= j < i - 1 && CsvPath(cfg.saveDir, ts.keys[j]) == p
        ensures ts.keys[j] == ts.keys[i - 1]
      {
        CsvPathInjective(cfg.saveDir, ts.keys[j], ts.keys[i - 1]);
      }
    }
  }

  /** Every other file is as it was, and no other file appears. */
  lemma {:induction false} WrittenOthers(files: map<string, string>, ts: Tables, i: nat, cfg: CsvConfig)
    requires ts.Valid() && i <= |ts.keys|
    ensures forall p <- files :: (forall j :: 0 <= j < i ==> p != CsvPath(cfg.saveDir, ts.keys[j])) ==>
      p in WrittenUpTo(files, ts, i, cfg) && WrittenUpTo(files, ts, i, cfg)[p] == files[p]
    ensures forall p <- WrittenUpTo(files, ts, i, cfg) :: p in files || exists j :: 0 <= j < i && p == CsvPath(cfg.saveDir, ts.keys[j])
  {
    if i > 0 {
      WrittenOthers(files, ts, i - 1, cfg);
    }
  }

  /** One line: FieldtoStr on every field, joined with the separator. */
  method EncodeRow(row: Record, cfg: CsvConfig) returns (line: string)
    ensures line == RowLine(row, cfg)
  {
    var result: seq<string> := [];
    for i := 0 to |row|
      invariant result == Fields(row[..i], cfg)
    {
      var st := FieldtoStr(row[i], cfg);
      FieldsSnoc(row, i, cfg);
      result := result + [st];
    }
    assert row[..|row|] == row;
    line := Join(result, [cfg.colChar]) + "\n";
  }

  /** The text written to one table's file: the header line when switched on, then one line per
      record. */
  method WriteTable(t: Table, cfg: CsvConfig) returns (text: string)
    ensures text == CsvText(t, cfg)
  {
    ghost var head: seq<Record> := if HeaderOn(cfg) then [HeaderRow(t.spec.cols.keys)] else [];
    if HeaderOn(cfg) {
      text := EncodeRow(HeaderRow(t.spec.cols.keys), cfg);
      LinesSnoc([], HeaderRow(t.spec.cols.keys), cfg);
      assert [] + [HeaderRow(t.spec.cols.keys)] == head;
    } else {
      text := "";
    }
    for j := 0 to |t.records|
      invariant text == Lines(head + t.records[..j], cfg)
    {
      var line := EncodeRow(t.records[j], cfg);
      LinesSnoc(head + t.records[..j], t.records[j], cfg);
      assert head + t.records[..j + 1] == (head + t.records[..j]) + [t.records[j]];
      text := text + line;
    }
    assert t.records[..|t.records|] == t.records;
  }

  class CsvWriter {
    const base: Writer
    const cfg: CsvConfig
    /** The files of the output directory: path to contents. */
    var files: map<string, string>

    constructor (w: Writer, c: CsvConfig, existing: map<string, string>)
      ensures base == w && cfg == c && files == existing
    {
      base := w;
      cfg := c;
      files := existing;
    }

    /** OFXListEnd: every table of the current list, in order, to its own file. */
    method ListEnd()
      requires base.Valid()
      modifies this`files
      ensures base.cur.None? ==> files == old(files)
      ensures base.cur.Some? ==>
        files == WrittenUpTo(old(files), base.lists.vals[base.cur.value], |base.lists.vals[base.cur.value].keys|, cfg)
    {
      if base.cur.None? {
        return;
      }
      var ts := base.lists.vals[base.cur.value];
      assert TablesOk(ts);
      WriteList(ts);
    }

    /** The tables of one list, each to its own file. */
    method WriteList(ts: Tables)
      requires ts.Valid()
      modifies this`files
      ensures files == WrittenUpTo(old(files), ts, |ts.keys|, cfg)
    {
      for i := 0 to |ts.keys|
        invariant files == WrittenUpTo(old(files), ts, i, cfg)
      {
        var text := WriteTable(ts.vals[ts.keys[i]], cfg);
        files := files[CsvPath(cfg.saveDir, ts.keys[i]) := text];
      }
    }
  }
}
