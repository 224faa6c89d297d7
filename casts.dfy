/** The value caster `Writer.__DestFmt` of OFXWriter.py: turns the text of an OFX element into the
    value stored in a record slot, selected by the column's type code. */
module Casts {
  import opened Wrappers
  import opened Strs
  import opened Values

  /** The library calls the caster relies on, passed in explicitly:
      `unescape` is html.unescape, `decimal` is str(Decimal(s)), and `localize` is
      strptime(groomed, '%Y%m%d%H%M%S.%f[%z]') followed by astimezone(TargetTZ) and dropping the zone. */
  datatype CastEnv = CastEnv(unescape: string -> string, decimal: string -> string, localize: string -> DateTime)

  const Truthy: seq<string> := ["Y", "YES", "T", "TRUE"]
  const Falsy: seq<string> := ["N", "NO", "F", "FALSE"]

  /** The 'B' branch: case-insensitive boolean tokens, anything else is None. */
  function BoolCast(s: string): (r: Value)
    ensures r == Bool(true) <==> Upper(s) in Truthy
    ensures r == Bool(false) <==> Upper(s) in Falsy
    ensures r == Null <==> Upper(s) !in Truthy && Upper(s) !in Falsy
    ensures r.Bool? || r.Null?
  {
    var u := Upper(s);
    if u in Truthy then Bool(true) else if u in Falsy then Bool(false) else Null
  }

  // ---------------------------------------------------------------------------------------------
  // The timestamp pattern ^(\d{8})(\d{6})(\.(\d+))?(\[([+-]?\d{1,2})(:(\w+))?])?$

  /** The optional bracketed zone: sign, one or two hour digits, optional zone name. */
  datatype Zone = Zone(sign: string, hours: string, name: Option<string>)

  /** The groups of a successful match. */
  datatype TsMatch = TsMatch(date: string, time: string, frac: Option<string>, zone: Option<Zone>)


  predicate ZoneOk(z: Zone) {
    && (z.sign == "" || z.sign == "+" || z.sign == "-")
    && 1 <= |z.hours| <= 2 && AllDigits(z.hours)
    && (z.name.Some? ==> |z.name.value| > 0 && AllWord(z.name.value))
  }

  predicate MatchOk(m: TsMatch) {
    && |m.date| == 8 && AllDigits(m.date)
    && |m.time| == 6 && AllDigits(m.time)
    && (m.frac.Some? ==> |m.frac.value| > 0 && AllDigits(m.frac.value))
    && (m.zone.Some? ==> ZoneOk(m.zone.value))
  }

  function ZoneText(z: Zone): string {
    "[" + z.sign + z.hours + (if z.name.Some? then ":" + z.name.value else "") + "]"
  }

  /** The text a match stands for: the pattern's groups put back together. */
  function Render(m: TsMatch): string {
    m.date + m.time + (FracText(m.frac) + ZoneOptText(m.zone))
  }

  function FracText(f: Option<string>): string {
    if f.Some? then "." + f.value else ""
  }

  function ZoneOptText(z: Option<Zone>): string {
    if z.Some? then ZoneText(z.value) else ""
  }

  /** Length of the run of digits that starts t. */
  function DigitRun(t: string): (n: nat)
    ensures n <= |t|
  {
    if t == [] || !IsDigit(t[0]) then 0 else 1 + DigitRun(t[1..])
  }

  /** The run is made of digits and is maximal. */
  lemma {:induction false} DigitRunDigits(t: string)
    ensures AllDigits(t[..DigitRun(t)])
    ensures DigitRun(t) < |t| ==> !IsDigit(t[DigitRun(t)])
  {
    if t != [] && IsDigit(t[0]) {
      DigitRunDigits(t[1..]);
      assert t[..DigitRun(t)] == [t[0]] + t[1..][..DigitRun(t[1..])];
    }
  }

  lemma {:induction false} DigitRunOf(d: string, t: string)
    requires AllDigits(d)
    requires t == [] || !IsDigit(t[0])
    ensures DigitRun(d + t) == |d|
  {
    if d != [] {
      assert (d + t)[1..] == d[1..] + t;
      DigitRunOf(d[1..], t);
    } else {
      assert d + t == t;
    }
  }

  /** `\d{1,2}(:(\w+))?` anchored at both ends of u, after the sign. */
  function MatchHours(sign: string, u: string): Option<Zone>
  {
    var n := DigitRun(u);
    if n == 0 || n > 2 then None
    else if n == |u| then Some(Zone(sign, u, None))
    else if u[n] == ':' && n + 1 < |u| && AllWord(u[n + 1..]) then Some(Zone(sign, u[..n], Some(u[n + 1..])))
    else None
  }

  /** `[+-]?\d{1,2}(:(\w+))?` anchored at both ends of inner. */
  function MatchSigned(inner: string): Option<Zone>
  {
    if |inner| > 0 && (inner[0] == '+' || inner[0] == '-') then MatchHours([inner[0]], inner[1..])
    else MatchHours("", inner)
  }

  /** `\[([+-]?\d{1,2})(:(\w+))?]` anchored at both ends of t. */
  function MatchZone(t: string): Option<Zone>
  {
    if |t| < 3 || t[0] != '[' || t[|t| - 1] != ']' then None else MatchSigned(t[1..|t| - 1])
  }

  /** Everything after the fourteen digits: optional fraction, optional zone, then the end. */
  function MatchTail(t: string): Option<(Option<string>, Option<Zone>)>
  {
    if t == [] then Some((None, None))
    else if t[0] == '.' then
      var n := DigitRun(t[1..]);
      if n == 0 then None
      else if 1 + n == |t| then Some((Some(t[1..1 + n]), None))
      else match MatchZone(t[1 + n..])
        case Some(z) => Some((Some(t[1..1 + n]), Some(z)))
        case None => None
    else match MatchZone(t)
      case Some(z) => Some((None, Some(z)))
      case None => None
  }

  function MatchBody(t: string): Option<TsMatch>
  {
    if |t| < 14 || !AllDigits(t[..14]) then None
    else match MatchTail(t[14..])
      case Some(ft) => Some(TsMatch(t[..8], t[8..14], ft.0, ft.1))
      case None => None
  }

  /** re.search with the anchored pattern; `$` also matches before one final newline. */
  function MatchTimestamp(s: string): Option<TsMatch>
  {
    match MatchBody(s)
    case Some(m) => Some(m)
    case None => if |s| > 0 && s[|s| - 1] == '\n' then MatchBody(s[..|s| - 1]) else None
  }

  function NameText(z: Zone): string {
    if z.name.Some? then ":" + z.name.value else ""
  }

  lemma {:induction false} HoursComplete(z: Zone)
    requires ZoneOk(z)
    ensures MatchHours(z.sign, z.hours + NameText(z)) == Some(z)
  {
    var tail := NameText(z);
    assert tail != [] ==> tail[0] == ':';
    DigitRunOf(z.hours, tail);
    var u := z.hours + tail;
    assert u[..|z.hours|] == z.hours;
    if z.name.Some? {
      assert u[|z.hours| + 1..] == z.name.value;
    } else {
      assert u == z.hours;
    }
  }

  lemma {:induction false} HoursSound(sign: string, u: string)
    requires MatchHours(sign, u).Some?
    ensures var z := MatchHours(sign, u).value;
      && z.sign == sign && z.hours + NameText(z) == u
      && 1 <= |z.hours| <= 2 && AllDigits(z.hours)
      && (z.name.Some? ==> |z.name.value| > 0 && AllWord(z.name.value))
  {
    var n := DigitRun(u);
    DigitRunDigits(u);
    if n < |u| {
      assert u == u[..n] + ([':'] + u[n + 1..]);
    }
  }

  lemma {:induction false} SignedComplete(z: Zone)
    requires ZoneOk(z)
    ensures MatchSigned(z.sign + (z.hours + NameText(z))) == Some(z)
  {
    var u := z.hours + NameText(z);
    var inner := z.sign + u;
    assert IsDigit(z.hours[0]);
    assert u[0] == z.hours[0];
    if z.sign != "" {
      assert inner[0] == z.sign[0] && [inner[0]] == z.sign;
      assert inner[1..] == u;
    } else {
      assert inner == u;
    }
    HoursComplete(z);
  }

  lemma {:induction false} SignedSound(inner: string)
    requires MatchSigned(inner).Some?
    ensures ZoneOk(MatchSigned(inner).value)
    ensures var z := MatchSigned(inner).value; z.sign + (z.hours + NameText(z)) == inner
  {
    if |inner| > 0 && (inner[0] == '+' || inner[0] == '-') {
      HoursSound([inner[0]], inner[1..]);
      assert inner == [inner[0]] + inner[1..];
    } else {
      HoursSound("", inner);
    }
  }

  lemma {:induction false} ZoneTextParts(z: Zone)
    ensures ZoneText(z) == "[" + (z.sign + (z.hours + NameText(z))) + "]"
  {
  }

  lemma {:induction false} Wrap(t: string)
    requires |t| >= 2
    ensures t == [t[0]] + t[1..|t| - 1] + [t[|t| - 1]]
  {
  }

  lemma {:induction false} ZoneRoundTrip(z: Zone)
    requires ZoneOk(z)
    ensures MatchZone(ZoneText(z)) == Some(z)
  {
    var inner := z.sign + (z.hours + NameText(z));
    ZoneTextParts(z);
    var t := ZoneText(z);
    assert t[1..|t| - 1] == inner;
    SignedComplete(z);
  }

  lemma {:induction false} MatchZoneSound(t: string)
    requires MatchZone(t).Some?
    ensures ZoneOk(MatchZone(t).value) && ZoneText(MatchZone(t).value) == t
  {
    var inner := t[1..|t| - 1];
    SignedSound(inner);
    Wrap(t);
    ZoneTextParts(MatchZone(t).value);
  }

  lemma {:induction false} DigitsNoNewline(s: string)
    requires AllDigits(s)
    ensures '\n' !in s
  {
    forall i | 0 <= i < |s| ensures s[i] != '\n' {
      assert IsDigit(s[i]);
    }
  }

  lemma {:induction false} WordNoNewline(s: string)
    requires AllWord(s)
    ensures '\n' !in s
  {
    forall i | 0 <= i < |s| ensures s[i] != '\n' {
      assert IsWordChar(s[i]);
    }
  }

  lemma {:induction false} NoNewlineInRender(m: TsMatch)
    requires MatchOk(m)
    ensures '\n' !in Render(m)
  {
    DigitsNoNewline(m.date);
    DigitsNoNewline(m.time);
    if m.frac.Some? { DigitsNoNewline(m.frac.value); }
    if m.zone.Some? {
      var z := m.zone.value;
      DigitsNoNewline(z.hours);
      if z.name.Some? { WordNoNewline(z.name.value); }
      assert ZoneText(z) == "[" + z.sign + z.hours + NameText(z) + "]";
    }
  }

  lemma {:induction false} ZoneStartsWithBracket(z: Option<Zone>)
    ensures ZoneOptText(z) == [] || ZoneOptText(z)[0] == '['
  {
  }

  lemma {:induction false} TailComplete(f: Option<string>, z: Option<Zone>)
    requires f.Some? ==> |f.value| > 0 && AllDigits(f.value)
    requires z.Some? ==> ZoneOk(z.value)
    ensures MatchTail(FracText(f) + ZoneOptText(z)) == Some((f, z))
  {
    if z.Some? { ZoneRoundTrip(z.value); }
    ZoneStartsWithBracket(z);
    if f.Some? {
      FracSplit(f.value, ZoneOptText(z));
    } else {
      assert FracText(f) + ZoneOptText(z) == ZoneOptText(z);
    }
  }

  lemma {:induction false} FracSplit(d: string, zt: string)
    requires |d| > 0 && AllDigits(d)
    requires zt == [] || zt[0] == '['
    ensures var t := "." + d + zt;
      && t[0] == '.' && DigitRun(t[1..]) == |d| && t[1..1 + |d|] == d && t[1 + |d|..] == zt
  {
    var t := "." + d + zt;
    assert t[1..] == d + zt;
    DigitRunOf(d, zt);
    assert t[1..1 + |d|] == d;
    assert t[1 + |d|..] == zt;
  }

  lemma {:induction false} TailSound(t: string)
    requires MatchTail(t).Some?
    ensures var (f, z) := MatchTail(t).value;
      && (f.Some? ==> |f.value| > 0 && AllDigits(f.value))
      && (z.Some? ==> ZoneOk(z.value))
      && FracText(f) + ZoneOptText(z) == t
  {
    if t != [] {
      if t[0] == '.' {
        FracTailSound(t);
      } else {
        MatchZoneSound(t);
      }
    }
  }

  /** A tail that starts with '.': the digits after it, then an optional zone. */
  lemma {:induction false} FracTailSound(t: string)
    requires t != [] && t[0] == '.' && MatchTail(t).Some?
    ensures var (f, z) := MatchTail(t).value;
      && f.Some? && |f.value| > 0 && AllDigits(f.value)
      && (z.Some? ==> ZoneOk(z.value))
      && FracText(f) + ZoneOptText(z) == t
  {
    var n := DigitRun(t[1..]);
    var d, rest := t[1..1 + n], t[1 + n..];
    DigitRunDigits(t[1..]);
    assert t[1..][..n] == d;
    assert t == "." + d + rest;
    if rest != [] {
      MatchZoneSound(rest);
    }
  }

  lemma {:induction false} RenderParts(m: TsMatch)
    requires |m.date| == 8 && |m.time| == 6
    ensures var t := Render(m);
      && |t| >= 14 && t[..14] == m.date + m.time && t[..8] == m.date && t[8..14] == m.time
      && t[14..] == FracText(m.frac) + ZoneOptText(m.zone)
  {
  }

  lemma {:induction false} BodyComplete(m: TsMatch)
    requires MatchOk(m)
    ensures MatchBody(Render(m)) == Some(m)
  {
    RenderParts(m);
    TailComplete(m.frac, m.zone);
  }

  lemma {:induction false} MatchBodySound(t: string)
    requires MatchBody(t).Some?
    ensures MatchOk(MatchBody(t).value) && Render(MatchBody(t).value) == t
  {
    TailSound(t[14..]);
    DigitsSlices(t[..14]);
    assert t[..14][..8] == t[..8] && t[..14][8..] == t[8..14];
    assert t == t[..8] + t[8..14] + t[14..];
  }

  lemma {:induction false} DigitsSlices(s: string)
    requires AllDigits(s) && |s| == 14
    ensures AllDigits(s[..8]) && AllDigits(s[8..])
  {
    assert forall i :: 0 <= i < 8 ==> s[..8][i] == s[i];
    assert forall i :: 0 <= i < 6 ==> s[8..][i] == s[8 + i];
  }

  /** Every rendering of well-formed groups is matched, and gives back exactly those groups;
      so is the rendering followed by one newline. */
  lemma {:induction false} MatchRender(m: TsMatch)
    requires MatchOk(m)
    ensures MatchTimestamp(Render(m)) == Some(m)
    ensures MatchTimestamp(Render(m) + "\n") == Some(m)
  {
    BodyComplete(m);
    var t := Render(m);
    NoNewlineInRender(m);
    var tn := t + "\n";
    assert tn[..|tn| - 1] == t;
    assert tn[|tn| - 1] == '\n';
    MatchBodyNoNewline(tn);
  }

  /** The body pattern never matches a text that holds a newline. */
  lemma {:induction false} MatchBodyNoNewline(x: string)
    ensures '\n' in x ==> MatchBody(x).None?
  {
    if MatchBody(x).Some? {
      MatchBodySound(x);
      NoNewlineInRender(MatchBody(x).value);
    }
  }

  /** A match stands for exactly the rendering of its groups, possibly followed by one newline. */
  lemma {:induction false} MatchSound(s: string)
    requires MatchTimestamp(s).Some?
    ensures MatchOk(MatchTimestamp(s).value)
    ensures s == Render(MatchTimestamp(s).value) || s == Render(MatchTimestamp(s).value) + "\n"
  {
    if MatchBody(s).Some? {
      MatchBodySound(s);
    } else {
      MatchBodySound(s[..|s| - 1]);
      assert s == s[..|s| - 1] + "\n";
    }
  }

  // ---------------------------------------------------------------------------------------------
  // Grooming: the string handed to strptime

  /** `{0:+05d}`: explicit sign, then the magnitude zero-padded so that the whole field has width 5. */
  function SignedWidth5(v: int): (r: string)
    ensures |r| >= 5
    ensures r[0] == (if v < 0 then '-' else '+')
    ensures AllDigits(r[1..]) && DigitsValue(r[1..]) == (if v < 0 then -v else v)
  {
    var mag := if v < 0 then -v else v;
    var p := ZeroPad(NatToStr(mag), 4);
    ZeroPadValue(NatToStr(mag), 4);
    var r := [if v < 0 then '-' else '+'] + p;
    assert r[1..] == p;
    r
  }

  lemma {:induction false} ZerosValue(n: nat, s: string)
    requires AllDigits(s)
    ensures AllDigits(Zeros(n) + s) && DigitsValue(Zeros(n) + s) == DigitsValue(s)
    decreases |s|
  {
    var z := Zeros(n) + s;
    if s == [] {
      assert z == Zeros(n);
      ZerosOnly(n);
    } else {
      var init := s[..|s| - 1];
      assert z[..|z| - 1] == Zeros(n) + init;
      ZerosValue(n, init);
    }
  }

  lemma {:induction false} ZerosOnly(n: nat)
    ensures DigitsValue(Zeros(n)) == 0
  {
    if n > 0 {
      var z := Zeros(n);
      assert z[..|z| - 1] == Zeros(n - 1) by {
        assert z == ['0'] + Zeros(n - 1);
        ZerosSnoc(n - 1);
      }
      ZerosOnly(n - 1);
    }
  }

  lemma {:induction false} ZerosSnoc(n: nat)
    ensures ['0'] + Zeros(n) == Zeros(n) + ['0']
  {
    if n > 0 {
      ZerosSnoc(n - 1);
      assert ['0'] + Zeros(n) == ['0'] + (['0'] + Zeros(n - 1));
    }
  }

  lemma {:induction false} ZeroPadValue(s: string, w: nat)
    requires AllDigits(s)
    ensures DigitsValue(ZeroPad(s, w)) == DigitsValue(s)
  {
    if |s| < w { ZerosValue(w - |s|, s); }
  }

  /** int(group 4) if the fraction is present, else 0 (the digits are read as an integer, not scaled). */
  function FracValue(m: TsMatch): nat
    requires MatchOk(m)
  {
    if m.frac.Some? then DigitsValue(m.frac.value) else 0
  }

  /** int(group 6) if the zone is present, else 0. */
  function ZoneHours(m: TsMatch): int
    requires MatchOk(m)
  {
    if m.zone.None? then 0
    else var h: int := DigitsValue(m.zone.value.hours); if m.zone.value.sign == "-" then -h else h
  }

  /** The fraction field: int(group 4) formatted with `{:06d}`. */
  function FracField(m: TsMatch): string
    requires MatchOk(m)
  {
    ZeroPad(NatToStr(FracValue(m)), 6)
  }

  /** The groomed value '{date}{time}.{fraction:06d}[{hours*100:+05d}]'. */
  function Groom(m: TsMatch): (g: string)
    requires MatchOk(m)
    ensures |g| > 16 + |FracField(m)| && g[..14] == m.date + m.time && g[14] == '.'
    ensures g[15..15 + |FracField(m)|] == FracField(m)
    ensures g[15 + |FracField(m)|] == '[' && g[|g| - 1] == ']'
    ensures g[16 + |FracField(m)|..|g| - 1] == SignedWidth5(ZoneHours(m) * 100)
  {
    var dt, fr, zone := m.date + m.time, FracField(m), SignedWidth5(ZoneHours(m) * 100);
    GroomLayout(dt + "." + fr + "[" + zone + "]", dt, fr, zone);
    dt + "." + fr + "[" + zone + "]"
  }

  /** The zone field between the brackets: the sign of the hours of group 6 (plus when there is no
      zone), then at least four digits whose value is the hours times 100; the zone name is dropped. */
  lemma {:induction false} GroomZoneField(m: TsMatch)
    requires MatchOk(m)
    ensures var g := Groom(m); var z := g[16 + |FracField(m)|..|g| - 1];
      && |z| >= 5
      && z[0] == (if m.zone.Some? && m.zone.value.sign == "-" && DigitsValue(m.zone.value.hours) > 0 then '-' else '+')
      && AllDigits(z[1..])
      && DigitsValue(z[1..]) == (if m.zone.None? then 0 else DigitsValue(m.zone.value.hours) * 100)
  {
    var g := Groom(m);
    var z := g[16 + |FracField(m)|..|g| - 1];
    assert z == SignedWidth5(ZoneHours(m) * 100);
  }

  /** The fraction field is int(group 4) zero-padded to at least six digits: the digits are read as
      an integer, not as a fraction of a second. */
  lemma {:induction false} FracFieldValue(m: TsMatch)
    requires MatchOk(m)
    ensures |FracField(m)| >= 6 && AllDigits(FracField(m)) && DigitsValue(FracField(m)) == FracValue(m)
  {
    ZeroPadValue(NatToStr(FracValue(m)), 6);
  }

  lemma {:induction false} GroomLayout(g: string, dt: string, fr: string, zone: string)
    requires |dt| == 14 && g == dt + "." + fr + "[" + zone + "]"
    ensures |g| > 16 + |fr| && g[..14] == dt && g[14] == '.' && g[15..15 + |fr|] == fr
    ensures g[15 + |fr|] == '[' && g[|g| - 1] == ']' && g[16 + |fr|..|g| - 1] == zone
  {
    assert g == (dt + "." + fr) + ("[" + zone + "]");
    assert (dt + "." + fr)[15..] == fr;
    assert g[16 + |fr|..|g| - 1] == ("[" + zone + "]")[1..|zone| + 1];
  }

  /** The 'D' / 'DATE' branch: None unless the pattern matches; DATE keeps only the calendar day. */
  function TimestampCast(env: CastEnv, s: string, dateOnly: bool): (r: Value)
  {
    match MatchTimestamp(s)
    case None => Null
    case Some(m) =>
      MatchSound(s);
      var dt := env.localize(Groom(m));
      if dateOnly then Time(DateTime(dt.year, dt.month, dt.day, 0, 0, 0, 0)) else Time(dt)
  }

  /** The type codes __DestFmt casts with. Handed None instead of a text, each of them raises:
      html.unescape, Decimal, upper() and re.search all need a string. */
  const CastCodes: seq<string> := ["E", "S", "N", "B", "D", "DATE"]

  /** `__DestFmt(str, fmt)`. */
  function DestFmt(env: CastEnv, s: string, fmt: string): (r: Value)
    ensures fmt == "E" || fmt == "S" ==> r == Str(env.unescape(s))
    ensures fmt == "N" ==> r == Dec(env.decimal(s))
    ensures fmt == "B" ==> r == BoolCast(s)
    ensures fmt == "D" || fmt == "DATE" ==> (r.Null? <==> MatchTimestamp(s).None?)
    ensures fmt == "D" || fmt == "DATE" ==> r.Null? || r.Time?
    ensures fmt == "DATE" && r.Time? ==> r.t.IsMidnight()
    ensures fmt !in CastCodes ==> r == Null
  {
    match fmt
    case "E" => Str(env.unescape(s))
    case "S" => Str(env.unescape(s))
    case "N" => Dec(env.decimal(s))
    case "B" => BoolCast(s)
    case "D" => TimestampCast(env, s, false)
    case "DATE" => TimestampCast(env, s, true)
    case _ => Null
  }

  // ---------------------------------------------------------------------------------------------
  // Properties

  /** The boolean cast ignores letter case. */
  lemma {:induction false} BoolCastCaseInsensitive(s: string, t: string)
    requires Upper(s) == Upper(t)
    ensures DestFmt(CastEnv(x => x, x => x, x => DateTime(0, 0, 0, 0, 0, 0, 0)), s, "B") == BoolCast(t)
  {
  }

  /** The matched time group is never empty, so the source's branch for an empty time group is never taken. */
  lemma {:induction false} TimeGroupNeverEmpty(s: string)
    requires MatchTimestamp(s).Some?
    ensures |MatchTimestamp(s).value.time| == 6
  {
    MatchSound(s);
  }

  lemma {:induction false} DigitFive()
    ensures DigitsValue("5") == 5
  {
    assert "5"[..0] == [];
  }

  lemma {:induction false} NumeralZero()
    ensures NatToStr(0) == "0"
  {
  }

  lemma {:induction false} NumeralFive()
    ensures NatToStr(5) == "5"
  {
  }

  lemma {:induction false} Numeral500()
    ensures NatToStr(500) == "500"
  {
    assert NatToStr(5) == "5";
    assert NatToStr(50) == "50";
  }

  lemma {:induction false} PadSix(c: char)
    ensures ZeroPad([c], 6) == "00000" + [c]
  {
    assert Zeros(5) == "00000";
  }

  lemma {:induction false} PadFour(s: string)
    requires |s| == 1 || |s| == 3
    ensures ZeroPad(s, 4) == (if |s| == 1 then "000" else "0") + s
  {
    assert Zeros(1) == "0";
    assert Zeros(3) == "000";
  }

  lemma {:induction false} WidthZero()
    ensures SignedWidth5(0) == "+0000"
  {
    NumeralZero();
    PadFour("0");
  }

  lemma {:induction false} WidthMinus500()
    ensures SignedWidth5(-500) == "-0500"
  {
    Numeral500();
    PadFour("500");
  }

  /** A fraction of ".5" grooms to microsecond 5, not 500000: the digits are not scaled. */
  lemma {:induction false} FractionNotScaled()
    ensures MatchTimestamp("20230615120000.5") == Some(TsMatch("20230615", "120000", Some("5"), None))
    ensures Groom(TsMatch("20230615", "120000", Some("5"), None)) == "20230615120000.000005[+0000]"
  {
    var m := TsMatch("20230615", "120000", Some("5"), None);
    assert Render(m) == "20230615120000.5";
    MatchRender(m);
    FractionFiveGroomed();
  }

  lemma {:induction false} FractionFiveGroomed()
    ensures Groom(TsMatch("20230615", "120000", Some("5"), None)) == "20230615120000.000005[+0000]"
  {
    var m := TsMatch("20230615", "120000", Some("5"), None);
    FractionFive();
    WidthZero();
    GroomParts(m, "000005", "+0000");
    FractionFiveText();
  }

  lemma {:induction false} FractionFiveText()
    ensures "20230615" + "120000" + "." + "000005" + "[" + "+0000" + "]" == "20230615120000.000005[+0000]"
  {
  }

  lemma {:induction false} GroomParts(m: TsMatch, fr: string, zone: string)
    requires MatchOk(m) && FracField(m) == fr && SignedWidth5(ZoneHours(m) * 100) == zone
    ensures Groom(m) == m.date + m.time + "." + fr + "[" + zone + "]"
  {
  }

  lemma {:induction false} FractionFive()
    ensures var m := TsMatch("20230615", "120000", Some("5"), None);
      MatchOk(m) && ZoneHours(m) == 0 && FracField(m) == "000005"
  {
    var m := TsMatch("20230615", "120000", Some("5"), None);
    DigitFive();
    NumeralFive();
    PadSix('5');
    assert FracValue(m) == 5;
  }

  /** The groomed zone field of "[-5:EST]" is "-0500": the zone name is dropped. */
  lemma {:induction false} ZoneGroomed()
    ensures MatchTimestamp("20230615120000[-5:EST]") == Some(TsMatch("20230615", "120000", None, Some(Zone("-", "5", Some("EST")))))
    ensures Groom(TsMatch("20230615", "120000", None, Some(Zone("-", "5", Some("EST"))))) == "20230615120000.000000[-0500]"
  {
    var m := TsMatch("20230615", "120000", None, Some(Zone("-", "5", Some("EST"))));
    assert ZoneOk(m.zone.value);
    assert Render(m) == "20230615120000[-5:EST]";
    MatchRender(m);
    ZoneMinusFiveGroomed();
  }

  lemma {:induction false} ZoneMinusFiveGroomed()
    ensures Groom(TsMatch("20230615", "120000", None, Some(Zone("-", "5", Some("EST"))))) == "20230615120000.000000[-0500]"
  {
    var m := TsMatch("20230615", "120000", None, Some(Zone("-", "5", Some("EST"))));
    ZoneMinusFive();
    WidthMinus500();
    GroomParts(m, "000000", "-0500");
    ZoneMinusFiveText();
  }

  lemma {:induction false} ZoneMinusFiveText()
    ensures "20230615" + "120000" + "." + "000000" + "[" + "-0500" + "]" == "20230615120000.000000[-0500]"
  {
  }

  lemma {:induction false} ZoneMinusFive()
    ensures var m := TsMatch("20230615", "120000", None, Some(Zone("-", "5", Some("EST"))));
      MatchOk(m) && ZoneHours(m) == -5 && FracField(m) == "000000"
  {
    var m := TsMatch("20230615", "120000", None, Some(Zone("-", "5", Some("EST"))));
    assert ZoneOk(m.zone.value);
    DigitFive();
    NumeralZero();
    PadSix('0');
  }
}
