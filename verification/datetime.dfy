/** The date and time normalisers of the perucompras importer: `get_visit_date` and
    `get_time`, each a cascade of `datetime.strptime` formats tried in a fixed order,
    whose first success is re-printed with `strftime`.

    A format is a sequence of directives. Matching follows CPython's `_strptime`: every
    numeric directive reads the digits in front of it (one or two for %m %d %H %M %S,
    exactly two for %y, exactly four for %Y) and checks the range its regular expression
    allows; a space in the format matches one or more whitespace characters; %p reads
    "am" or "pm" in any case; the whole string must be consumed; and the fields must then
    form a real `datetime`. Reading the maximal run of digits gives the same verdict as the
    backtracking regular expression, because in every listed format a numeric directive is
    followed by '/', ':', a space or the end of the string, none of which is a digit. */
module DateTime {
  import opened Results

  // ---------------------------------------------------------------- characters

  predicate IsDigit(c: char) { '0' <= c <= '9' }

  /** Python's `str.isspace()`: what `strip()` removes and what the regex `\s` matches. */
  predicate IsSpace(c: char) {
    c == ' ' || ('\t' <= c <= '\r') || ('\U{1c}' <= c <= '\U{1f}') || c == '\U{85}' || c == '\U{a0}'
    || c == '\U{1680}' || ('\U{2000}' <= c <= '\U{200a}') || c == '\U{2028}' || c == '\U{2029}'
    || c == '\U{202f}' || c == '\U{205f}' || c == '\U{3000}'
  }

  /** `not s.strip()`: the string is empty or made only of whitespace. */
  predicate IsBlank(s: string) {
    forall i :: 0 <= i < |s| ==> IsSpace(s[i])
  }

  function LowerChar(c: char): char {
    if 'A' <= c <= 'Z' then (c as int + 32) as char else c
  }

  /** `s.lower()` on ASCII letters. */
  function Lower(s: string): (r: string)
    ensures |r| == |s| && forall i :: 0 <= i < |s| ==> r[i] == LowerChar(s[i])
  {
    seq(|s|, i requires 0 <= i < |s| => LowerChar(s[i]))
  }

  /** The export's placeholder for a visit that never started: `fecha.lower() == "no iniciado"`. */
  predicate IsNotStarted(s: string) {
    Lower(s) == "no iniciado"
  }

  // ---------------------------------------------------------------- decimal numerals

  predicate AllDigits(s: string) {
    forall i :: 0 <= i < |s| ==> IsDigit(s[i])
  }

  function DigitValue(c: char): nat
    requires IsDigit(c)
  {
    c as int - '0' as int
  }

  /** The number a string of decimal digits denotes (leading zeros allowed). */
  function Value(ds: string): nat
    requires AllDigits(ds)
    decreases |ds|
  {
    if ds == [] then 0 else Value(ds[..|ds| - 1]) * 10 + DigitValue(ds[|ds| - 1])
  }

  /** Length of the run of digits that starts the string. */
  function DigitRun(s: string): (k: nat)
    ensures k <= |s|
    ensures forall i :: 0 <= i < k ==> IsDigit(s[i])
    ensures k < |s| ==> !IsDigit(s[k])
  {
    if s != [] && IsDigit(s[0]) then 1 + DigitRun(s[1..]) else 0
  }

  /** Length of the run of whitespace that starts the string. */
  function SpaceRun(s: string): (k: nat)
    ensures k <= |s|
    ensures forall i :: 0 <= i < k ==> IsSpace(s[i])
    ensures k < |s| ==> !IsSpace(s[k])
  {
    if s != [] && IsSpace(s[0]) then 1 + SpaceRun(s[1..]) else 0
  }

  // ---------------------------------------------------------------- formats

  datatype Directive =
    | Month    // %m
    | Day      // %d
    | Year2    // %y
    | Year4    // %Y
    | Hour     // %H
    | Minute   // %M
    | Second   // %S
    | AmPm     // %p
    | Slash    // a literal '/'
    | Colon    // a literal ':'
    | Blank    // a space in the format string

  type Format = seq<Directive>

  /** "%m/%d/%y %H:%M %p" */
  const ShortYearMeridiem: Format := [Month, Slash, Day, Slash, Year2, Blank, Hour, Colon, Minute, Blank, AmPm]
  /** "%m/%d/%y %H:%M" */
  const ShortYear: Format := [Month, Slash, Day, Slash, Year2, Blank, Hour, Colon, Minute]
  /** "%m/%d/%Y %H:%M" */
  const LongYear: Format := [Month, Slash, Day, Slash, Year4, Blank, Hour, Colon, Minute]
  /** "%m/%d/%Y" */
  const DateOnly: Format := [Month, Slash, Day, Slash, Year4]
  /** "%H:%M:%S %p" */
  const ClockMeridiem: Format := [Hour, Colon, Minute, Colon, Second, Blank, AmPm]
  /** "%d/%m/%Y %H:%M" */
  const DayFirst: Format := [Day, Slash, Month, Slash, Year4, Blank, Hour, Colon, Minute]

  /** The order in which `get_visit_date` tries its formats. */
  const DateFormats: seq<Format> := [ShortYearMeridiem, ShortYear, LongYear, DateOnly, DayFirst]
  /** The order in which `get_time` tries its formats. */
  const TimeFormats: seq<Format> := [ShortYearMeridiem, ShortYear, LongYear, ClockMeridiem, DayFirst]

  // ---------------------------------------------------------------- matching

  /** The fields strptime collects; absent ones keep the defaults of `Default`. */
  datatype Stamp = Stamp(year: int, month: int, day: int, hour: int, minute: int, second: int)

  /** strptime's values for fields a format does not mention: 1900-01-01 00:00:00. */
  const Default := Stamp(1900, 1, 1, 0, 0, 0)

  predicate IsLeap(y: int) {
    y % 4 == 0 && (y % 100 != 0 || y % 400 == 0)
  }

  function DaysInMonth(y: int, m: int): int {
    if m == 2 then (if IsLeap(y) then 29 else 28)
    else if m == 4 || m == 6 || m == 9 || m == 11 then 30
    else 31
  }

  /** What the `datetime` constructor accepts. */
  predicate Valid(st: Stamp) {
    && 1 <= st.year <= 9999
    && 1 <= st.month <= 12
    && 1 <= st.day <= DaysInMonth(st.year, st.month)
    && 0 <= st.hour <= 23
    && 0 <= st.minute <= 59
    && 0 <= st.second <= 59
  }

  predicate IsMeridiem(a: char, b: char) {
    (LowerChar(a) == 'a' || LowerChar(a) == 'p') && LowerChar(b) == 'm'
  }

  /** A numeric directive reading the run of digits at the front of `s`. */
  function Numeric(d: Directive, s: string, st: Stamp): (r: Option<(nat, Stamp)>)
    ensures r.Some? ==> 0 < r.value.0 <= |s|
  {
    var k := DigitRun(s);
    if k == 0 || k > 4 then None
    else
      assert AllDigits(s[..k]);
      var v := Value(s[..k]);
      match d
      case Month => if k <= 2 && 1 <= v <= 12 then Some((k, st.(month := v))) else None
      case Day => if k <= 2 && 1 <= v <= 31 then Some((k, st.(day := v))) else None
      case Year2 => if k == 2 then Some((k, st.(year := if v <= 68 then 2000 + v else 1900 + v))) else None
      case Year4 => if k == 4 then Some((k, st.(year := v))) else None
      case Hour => if k <= 2 && v <= 23 then Some((k, st.(hour := v))) else None
      case Minute => if k <= 2 && v <= 59 then Some((k, st.(minute := v))) else None
      case Second => if k <= 2 && v <= 61 then Some((k, st.(second := v))) else None
      case _ => None
  }

  /** One directive against the front of `s`: how many characters it consumes and the
      fields it sets, or None when it does not match there. */
  function Step(d: Directive, s: string, st: Stamp): (r: Option<(nat, Stamp)>)
    ensures r.Some? ==> 0 < r.value.0 <= |s|
  {
    match d
    case Slash => if s != [] && s[0] == '/' then Some((1, st)) else None
    case Colon => if s != [] && s[0] == ':' then Some((1, st)) else None
    case Blank => var k := SpaceRun(s); if k > 0 then Some((k, st)) else None
    case AmPm => if |s| >= 2 && IsMeridiem(s[0], s[1]) then Some((2, st)) else None
    case Day =>
      // CPython's %d also accepts a space followed by one non-zero digit
      if s != [] && s[0] == ' ' then
        if |s| >= 2 && '1' <= s[1] <= '9' then Some((2, st.(day := DigitValue(s[1])))) else None
      else Numeric(Day, s, st)
    case _ => Numeric(d, s, st)
  }

  function MatchFrom(fmt: Format, s: string, st: Stamp): Option<Stamp>
    decreases |fmt|
  {
    if fmt == [] then (if s == [] then Some(st) else None)
    else match Step(fmt[0], s, st)
      case None => None
      case Some((k, next)) => MatchFrom(fmt[1..], s[k..], next)
  }

  /** `datetime.strptime(s, fmt)`: the parsed fields, or None where it raises ValueError. */
  function Match(fmt: Format, s: string): (r: Option<Stamp>)
    ensures r.Some? ==> Valid(r.value)
  {
    match MatchFrom(fmt, s, Default)
    case Some(st) => if Valid(st) then Some(st) else None
    case None => None
  }

  /** The nested try/except cascade: the first format of `fmts` that matches. */
  function FirstMatch(fmts: seq<Format>, s: string): (r: Option<Stamp>)
    ensures r.Some? ==> Valid(r.value) && exists i :: 0 <= i < |fmts| && Match(fmts[i], s) == r
    ensures r.None? <==> forall i :: 0 <= i < |fmts| ==> Match(fmts[i], s).None?
  {
    if fmts == [] then None
    else match Match(fmts[0], s)
      case Some(st) => Some(st)
      case None =>
        var r := FirstMatch(fmts[1..], s);
        assert forall i :: 1 <= i < |fmts| ==> fmts[i] == fmts[1..][i - 1];
        r
  }

  /** A format earlier in the list always takes precedence over a later one. */
  lemma {:induction false} FirstMatchWins(fmts: seq<Format>, s: string, i: nat)
    requires i < |fmts| && Match(fmts[i], s).Some?
    requires forall j :: 0 <= j < i ==> Match(fmts[j], s).None?
    ensures FirstMatch(fmts, s) == Match(fmts[i], s)
  {
    if i > 0 {
      assert Match(fmts[0], s).None?;
      FirstMatchWins(fmts[1..], s, i - 1);
    }
  }

  // ---------------------------------------------------------------- printing

  function Pow10(w: nat): nat {
    if w == 0 then 1 else 10 * Pow10(w - 1)
  }

  function DigitChar(d: nat): (c: char)
    requires d < 10
    ensures IsDigit(c) && DigitValue(c) == d
  {
    ('0' as int + d) as char
  }

  /** `v` printed in `w` zero-padded decimal digits; reading it back gives `v`. */
  function Pad(v: nat, w: nat): (r: string)
    requires v < Pow10(w)
    ensures |r| == w && AllDigits(r) && Value(r) == v
  {
    if w == 0 then ""
    else
      var front := Pad(v / 10, w - 1);
      var r := front + [DigitChar(v % 10)];
      assert r[..|r| - 1] == front;
      r
  }

  /** A zero-padded "YYYY-MM-DD" naming a real calendar day. */
  predicate IsIsoDate(r: string) {
    && |r| == 10 && r[4] == '-' && r[7] == '-'
    && AllDigits(r[..4]) && AllDigits(r[5..7]) && AllDigits(r[8..])
    && 1 <= Value(r[..4])
    && 1 <= Value(r[5..7]) <= 12
    && 1 <= Value(r[8..]) <= DaysInMonth(Value(r[..4]), Value(r[5..7]))
  }

  /** A zero-padded 24-hour "HH:MM". */
  predicate IsClock(r: string) {
    && |r| == 5 && r[2] == ':'
    && AllDigits(r[..2]) && AllDigits(r[3..])
    && Value(r[..2]) <= 23 && Value(r[3..]) <= 59
  }

  /** `strftime("%Y-%m-%d")`: reading the printed fields back gives the date. */
  function IsoDate(st: Stamp): (r: string)
    requires Valid(st)
    ensures IsIsoDate(r)
    ensures Value(r[..4]) == st.year && Value(r[5..7]) == st.month && Value(r[8..]) == st.day
  {
    var y, m, d := Pad(st.year, 4), Pad(st.month, 2), Pad(st.day, 2);
    var r := y + "-" + m + "-" + d;
    assert r[..4] == y && r[5..7] == m && r[8..] == d;
    r
  }

  /** `strftime("%H:%M")`: reading the printed fields back gives hour and minute. */
  function Clock(st: Stamp): (r: string)
    requires Valid(st)
    ensures IsClock(r)
    ensures Value(r[..2]) == st.hour && Value(r[3..]) == st.minute
  {
    var h, m := Pad(st.hour, 2), Pad(st.minute, 2);
    var r := h + ":" + m;
    assert r[..2] == h && r[3..] == m;
    r
  }

  // ---------------------------------------------------------------- the two normalisers

  /** `get_visit_date`: "" for a blank string, else the first matching format's date. */
  function VisitDate(s: string): (r: Result<string>)
    ensures IsBlank(s) ==> r == Ok("")
    ensures r.Ok? && r.value != "" ==> IsIsoDate(r.value)
    ensures r.Err? <==> !IsBlank(s) && forall i :: 0 <= i < |DateFormats| ==> Match(DateFormats[i], s).None?
    ensures r.Err? ==> r.error == FormatError(s)
  {
    if IsBlank(s) then Ok("")
    else match FirstMatch(DateFormats, s)
      case Some(st) => Ok(IsoDate(st))
      case None => Err(FormatError(s))
  }

  /** `get_time`: "" for a blank string or the "no iniciado" placeholder, else the first
      matching format's hour and minute. */
  function Time(s: string): (r: Result<string>)
    ensures IsBlank(s) ==> r == Ok("")
    ensures IsNotStarted(s) ==> r == Ok("")
    ensures r.Ok? && r.value != "" ==> IsClock(r.value)
    ensures r.Err? <==> !IsBlank(s) && !IsNotStarted(s)
                        && forall i :: 0 <= i < |TimeFormats| ==> Match(TimeFormats[i], s).None?
    ensures r.Err? ==> r.error == FormatError(s)
  {
    if IsBlank(s) then Ok("")
    else if IsNotStarted(s) then Ok("")
    else match FirstMatch(TimeFormats, s)
      case Some(st) => Ok(Clock(st))
      case None => Err(FormatError(s))
  }

  /** The first date format that matches decides the date, whatever later formats say. */
  lemma VisitDateFirstFormatWins(s: string, i: nat)
    requires !IsBlank(s)
    requires i < |DateFormats| && Match(DateFormats[i], s).Some?
    requires forall j :: 0 <= j < i ==> Match(DateFormats[j], s).None?
    ensures VisitDate(s) == Ok(IsoDate(Match(DateFormats[i], s).value))
  {
    FirstMatchWins(DateFormats, s, i);
  }

  /** The first time format that matches decides the time; its hour is the parsed %H. */
  lemma TimeFirstFormatWins(s: string, i: nat)
    requires !IsBlank(s) && !IsNotStarted(s)
    requires i < |TimeFormats| && Match(TimeFormats[i], s).Some?
    requires forall j :: 0 <= j < i ==> Match(TimeFormats[j], s).None?
    ensures Time(s) == Ok(Clock(Match(TimeFormats[i], s).value))
    ensures Value(Time(s).value[..2]) == Match(TimeFormats[i], s).value.hour
  {
    FirstMatchWins(TimeFormats, s, i);
  }

  // ---------------------------------------------------------------- %p with %H

  predicate MeridiemLetter(c: char) {
    c == 'a' || c == 'A' || c == 'p' || c == 'P'
  }

  /** `s` and `t` differ at most where both hold one of a, A, p, P: "10:00 AM" and
      "10:00 pm", for instance. */
  predicate SameUpToMeridiem(s: string, t: string) {
    |s| == |t| && forall i :: 0 <= i < |s| ==> s[i] == t[i] || (MeridiemLetter(s[i]) && MeridiemLetter(t[i]))
  }

  lemma SuffixUpToMeridiem(s: string, t: string, n: nat)
    requires SameUpToMeridiem(s, t) && n <= |s|
    ensures SameUpToMeridiem(s[n..], t[n..])
  {
    assert forall i :: 0 <= i < |s| - n ==> s[n..][i] == s[n + i] && t[n..][i] == t[n + i];
  }

  lemma {:induction false} DigitRunsUpToMeridiem(s: string, t: string)
    requires SameUpToMeridiem(s, t)
    ensures DigitRun(s) == DigitRun(t)
  {
    if s != [] {
      SuffixUpToMeridiem(s, t, 1);
      DigitRunsUpToMeridiem(s[1..], t[1..]);
    }
  }

  lemma {:induction false} SpaceRunsUpToMeridiem(s: string, t: string)
    requires SameUpToMeridiem(s, t)
    ensures SpaceRun(s) == SpaceRun(t)
  {
    if s != [] {
      SuffixUpToMeridiem(s, t, 1);
      SpaceRunsUpToMeridiem(s[1..], t[1..]);
    }
  }

  lemma NumericUpToMeridiem(d: Directive, s: string, t: string, st: Stamp)
    requires SameUpToMeridiem(s, t)
    ensures Numeric(d, s, st) == Numeric(d, t, st)
  {
    DigitRunsUpToMeridiem(s, t);
    var k := DigitRun(s);
    assert s[..k] == t[..k] by {
      forall i | 0 <= i < k ensures s[i] == t[i] {
        assert IsDigit(s[i]);
      }
    }
  }

  lemma StepUpToMeridiem(d: Directive, s: string, t: string, st: Stamp)
    requires SameUpToMeridiem(s, t)
    ensures Step(d, s, st) == Step(d, t, st)
  {
    match d
    case Slash =>
    case Colon =>
    case Blank => SpaceRunsUpToMeridiem(s, t);
    case AmPm =>
    case Day => NumericUpToMeridiem(d, s, t, st);
    case _ => NumericUpToMeridiem(d, s, t, st);
  }

  lemma {:induction false} MatchFromUpToMeridiem(fmt: Format, s: string, t: string, st: Stamp)
    requires SameUpToMeridiem(s, t)
    ensures MatchFrom(fmt, s, st) == MatchFrom(fmt, t, st)
    decreases |fmt|
  {
    if fmt != [] {
      StepUpToMeridiem(fmt[0], s, t, st);
      match Step(fmt[0], s, st)
      case None =>
      case Some((k, next)) =>
        SuffixUpToMeridiem(s, t, k);
        MatchFromUpToMeridiem(fmt[1..], s[k..], t[k..], next);
    } else {
      assert s == [] <==> t == [];
    }
  }

  /** %p is read but never applied to %H: swapping AM and PM cannot change what any
      format parses. */
  lemma MatchIgnoresMeridiem(fmt: Format, s: string, t: string)
    requires SameUpToMeridiem(s, t)
    ensures Match(fmt, s) == Match(fmt, t)
  {
    MatchFromUpToMeridiem(fmt, s, t, Default);
  }

  lemma {:induction false} FirstMatchIgnoresMeridiem(fmts: seq<Format>, s: string, t: string)
    requires SameUpToMeridiem(s, t)
    ensures FirstMatch(fmts, s) == FirstMatch(fmts, t)
  {
    if fmts != [] {
      MatchIgnoresMeridiem(fmts[0], s, t);
      FirstMatchIgnoresMeridiem(fmts[1..], s, t);
    }
  }

  /** `get_time` gives the same 24-hour time for "... AM" and "... PM". */
  lemma TimeIgnoresMeridiem(s: string, t: string)
    requires SameUpToMeridiem(s, t)
    requires !IsNotStarted(s) && !IsNotStarted(t)
    ensures Time(s).Ok? <==> Time(t).Ok?
    ensures Time(s).Ok? ==> Time(s) == Time(t)
  {
    assert IsBlank(s) <==> IsBlank(t) by {
      assert forall i :: 0 <= i < |s| ==> (IsSpace(s[i]) <==> IsSpace(t[i]));
    }
    FirstMatchIgnoresMeridiem(TimeFormats, s, t);
  }

  // ---------------------------------------------------------------- examples

  lemma TwoDigits(a: char, b: char)
    requires IsDigit(a) && IsDigit(b)
    ensures Value([a, b]) == 10 * DigitValue(a) + DigitValue(b)
  {
    assert [a, b][..1] == [a];
    assert [a][..0] == [];
    assert Value([a]) == DigitValue(a);
  }

  lemma FourDigits(a: char, b: char, c: char, d: char)
    requires IsDigit(a) && IsDigit(b) && IsDigit(c) && IsDigit(d)
    ensures Value([a, b, c, d]) == 1000 * DigitValue(a) + 100 * DigitValue(b) + 10 * DigitValue(c) + DigitValue(d)
  {
    assert [a, b, c, d][..3] == [a, b, c];
    assert [a, b, c][..2] == [a, b];
    TwoDigits(a, b);
  }
}
