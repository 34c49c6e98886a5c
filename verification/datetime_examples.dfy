/** Worked inputs for `get_visit_date` and `get_time`: which format of the cascade
    catches a string, and what is printed.

    The lemmas walk a format one directive at a time: `MatchFrom(fmt[j..], s[i..], st)`
    is the state of the match after `j` directives have consumed `i` characters. */
module DateTimeExamples {
  import opened Results
  import opened DateTime

  // ---------------------------------------------------------------- one directive at a time

  /** The field a numeric directive sets. */
  function With(d: Directive, st: Stamp, v: int): Stamp {
    match d
    case Month => st.(month := v)
    case Day => st.(day := v)
    case Hour => st.(hour := v)
    case Minute => st.(minute := v)
    case Second => st.(second := v)
    case Year4 => st.(year := v)
    case _ => st
  }

  /** The values a one-or-two-digit directive accepts. */
  predicate Fits(d: Directive, v: int) {
    match d
    case Month => 1 <= v <= 12
    case Day => 1 <= v <= 31
    case Hour => 0 <= v <= 23
    case Minute => 0 <= v <= 59
    case Second => 0 <= v <= 61
    case _ => false
  }

  /** Exactly two digits at position `i`, reading `v`. */
  predicate TwoAt(s: string, i: nat, v: int) {
    && i + 2 <= |s| && IsDigit(s[i]) && IsDigit(s[i + 1]) && (i + 2 < |s| ==> !IsDigit(s[i + 2]))
    && v == 10 * DigitValue(s[i]) + DigitValue(s[i + 1])
  }

  /** Exactly four digits at position `i`, reading `v`. */
  predicate FourAt(s: string, i: nat, v: int) {
    && i + 4 <= |s| && IsDigit(s[i]) && IsDigit(s[i + 1]) && IsDigit(s[i + 2]) && IsDigit(s[i + 3])
    && (i + 4 < |s| ==> !IsDigit(s[i + 4]))
    && v == 1000 * DigitValue(s[i]) + 100 * DigitValue(s[i + 1]) + 10 * DigitValue(s[i + 2]) + DigitValue(s[i + 3])
  }

  /** MatchFrom moves past a directive that consumed `k` characters. */
  lemma Advance(fmt: Format, j: nat, s: string, i: nat, st: Stamp, k: nat, next: Stamp)
    requires j < |fmt| && i <= |s|
    requires Step(fmt[j], s[i..], st) == Some((k, next))
    ensures MatchFrom(fmt[j..], s[i..], st) == MatchFrom(fmt[j + 1..], s[i + k..], next)
  {
    assert fmt[j..][0] == fmt[j] && fmt[j..][1..] == fmt[j + 1..];
    assert s[i..][k..] == s[i + k..];
  }

  lemma TwoDigitRun(s: string, i: nat, v: int)
    requires TwoAt(s, i, v)
    ensures DigitRun(s[i..]) == 2 && AllDigits(s[i..][..2]) && Value(s[i..][..2]) == v
  {
    var t := s[i..];
    assert t[0] == s[i] && t[1] == s[i + 1] && (|t| > 2 ==> t[2] == s[i + 2]);
    assert t[..2] == [t[0], t[1]];
    TwoDigits(t[0], t[1]);
  }

  lemma FourDigitRun(s: string, i: nat, v: int)
    requires FourAt(s, i, v)
    ensures DigitRun(s[i..]) == 4 && AllDigits(s[i..][..4]) && Value(s[i..][..4]) == v
  {
    var t := s[i..];
    assert t[0] == s[i] && t[1] == s[i + 1] && t[2] == s[i + 2] && t[3] == s[i + 3];
    assert |t| > 4 ==> t[4] == s[i + 4];
    assert t[..4] == [t[0], t[1], t[2], t[3]];
    FourDigits(t[0], t[1], t[2], t[3]);
  }

  /** A one-or-two-digit directive facing two digits in its range. */
  lemma Field(fmt: Format, j: nat, s: string, i: nat, st: Stamp, v: int)
    requires j < |fmt| && Fits(fmt[j], v) && TwoAt(s, i, v)
    ensures MatchFrom(fmt[j..], s[i..], st) == MatchFrom(fmt[j + 1..], s[i + 2..], With(fmt[j], st, v))
  {
    TwoDigitRun(s, i, v);
    assert s[i..][0] == s[i];
    assert Step(fmt[j], s[i..], st) == Some((2, With(fmt[j], st, v)));
    Advance(fmt, j, s, i, st, 2, With(fmt[j], st, v));
  }

  /** A one-or-two-digit directive facing two digits out of its range. */
  lemma FieldMisses(fmt: Format, j: nat, s: string, i: nat, st: Stamp, v: int)
    requires j < |fmt| && !fmt[j].Day? && (fmt[j].Month? || fmt[j].Hour? || fmt[j].Minute?)
    requires !Fits(fmt[j], v) && TwoAt(s, i, v)
    ensures MatchFrom(fmt[j..], s[i..], st) == None
  {
    TwoDigitRun(s, i, v);
    assert Step(fmt[j], s[i..], st) == None;
    assert fmt[j..][0] == fmt[j];
  }

  /** %Y facing four digits. */
  lemma Year(fmt: Format, j: nat, s: string, i: nat, st: Stamp, v: int)
    requires j < |fmt| && fmt[j] == Year4 && FourAt(s, i, v)
    ensures MatchFrom(fmt[j..], s[i..], st) == MatchFrom(fmt[j + 1..], s[i + 4..], st.(year := v))
  {
    FourDigitRun(s, i, v);
    Advance(fmt, j, s, i, st, 4, st.(year := v));
  }

  /** %y facing four digits: it wants exactly two. */
  lemma YearTwoMisses(fmt: Format, j: nat, s: string, i: nat, st: Stamp, v: int)
    requires j < |fmt| && fmt[j] == Year2 && FourAt(s, i, v)
    ensures MatchFrom(fmt[j..], s[i..], st) == None
  {
    FourDigitRun(s, i, v);
    assert Step(Year2, s[i..], st) == None;
    assert fmt[j..][0] == fmt[j];
  }

  /** '/' or ':' facing itself. */
  lemma Separator(fmt: Format, j: nat, s: string, i: nat, st: Stamp)
    requires j < |fmt| && i < |s|
    requires (fmt[j] == Slash && s[i] == '/') || (fmt[j] == Colon && s[i] == ':')
    ensures MatchFrom(fmt[j..], s[i..], st) == MatchFrom(fmt[j + 1..], s[i + 1..], st)
  {
    assert s[i..][0] == s[i];
    Advance(fmt, j, s, i, st, 1, st);
  }

  /** '/' facing something else. */
  lemma SlashMisses(fmt: Format, j: nat, s: string, i: nat, st: Stamp)
    requires j < |fmt| && i < |s| && fmt[j] == Slash && s[i] != '/'
    ensures MatchFrom(fmt[j..], s[i..], st) == None
  {
    assert s[i..][0] == s[i];
    assert fmt[j..][0] == fmt[j];
  }

  /** A space of the format facing one space and then a non-space. */
  lemma OneBlank(fmt: Format, j: nat, s: string, i: nat, st: Stamp)
    requires j < |fmt| && fmt[j] == Blank
    requires i + 1 < |s| && s[i] == ' ' && !IsSpace(s[i + 1])
    ensures MatchFrom(fmt[j..], s[i..], st) == MatchFrom(fmt[j + 1..], s[i + 1..], st)
  {
    var t := s[i..];
    assert t[0] == ' ' && t[1] == s[i + 1];
    assert SpaceRun(t[1..]) == 0;
    assert SpaceRun(t) == 1;
    Advance(fmt, j, s, i, st, 1, st);
  }

  /** %p closing the format on the last two characters. */
  lemma MeridiemEnd(fmt: Format, s: string, st: Stamp)
    requires |fmt| > 0 && fmt[|fmt| - 1] == AmPm
    requires |s| >= 2 && IsMeridiem(s[|s| - 2], s[|s| - 1])
    ensures MatchFrom(fmt[|fmt| - 1..], s[|s| - 2..], st) == Some(st)
  {
    var t := s[|s| - 2..];
    assert t[0] == s[|s| - 2] && t[1] == s[|s| - 1];
    Advance(fmt, |fmt| - 1, s, |s| - 2, st, 2, st);
    assert fmt[|fmt|..] == [] && s[|s|..] == [];
  }

  /** Everything consumed. */
  lemma Done(fmt: Format, s: string, st: Stamp)
    ensures MatchFrom(fmt[|fmt|..], s[|s|..], st) == Some(st)
  {
    assert fmt[|fmt|..] == [] && s[|s|..] == [];
  }

  lemma Whole(fmt: Format, s: string)
    ensures fmt[0..] == fmt && s[0..] == s
  {
  }

  // ---------------------------------------------------------------- "MM/DD/YYYY HH:MM"

  /** The shape shared by the month-first and day-first examples. */
  predicate DateClockShape(s: string, first: int, second: int, year: int, hour: int, minute: int) {
    && |s| == 16 && s[2] == '/' && s[5] == '/' && s[10] == ' ' && s[13] == ':'
    && TwoAt(s, 0, first) && TwoAt(s, 3, second) && FourAt(s, 6, year)
    && TwoAt(s, 11, hour) && TwoAt(s, 14, minute)
  }

  /** " HH:MM" at position 10, for a format ending in `Blank, Hour, Colon, Minute`. */
  lemma ClockTail(fmt: Format, s: string, st: Stamp, hour: int, minute: int)
    requires |fmt| == 9 && fmt[5] == Blank && fmt[6] == Hour && fmt[7] == Colon && fmt[8] == Minute
    requires |s| == 16 && s[10] == ' ' && s[13] == ':' && TwoAt(s, 11, hour) && TwoAt(s, 14, minute)
    requires hour <= 23 && minute <= 59
    ensures MatchFrom(fmt[5..], s[10..], st) == Some(st.(hour := hour, minute := minute))
  {
    OneBlank(fmt, 5, s, 10, st);
    Field(fmt, 6, s, 11, st, hour);
    Separator(fmt, 7, s, 13, st.(hour := hour));
    Field(fmt, 8, s, 14, st.(hour := hour), minute);
    Done(fmt, s, st.(hour := hour, minute := minute));
  }

  /** "NN/NN/" read by two one-or-two-digit fields, each followed by '/'. */
  lemma TwoFieldsSlashed(fmt: Format, s: string, a: int, b: int)
    requires |fmt| >= 4 && fmt[1] == Slash && fmt[3] == Slash && Fits(fmt[0], a) && Fits(fmt[2], b)
    requires |s| >= 6 && s[2] == '/' && s[5] == '/' && TwoAt(s, 0, a) && TwoAt(s, 3, b)
    ensures MatchFrom(fmt, s, Default) == MatchFrom(fmt[4..], s[6..], With(fmt[2], With(fmt[0], Default, a), b))
  {
    Whole(fmt, s);
    FieldThen(fmt, 0, s, 0, Default, a);
    FieldThen(fmt, 2, s, 3, With(fmt[0], Default, a), b);
  }

  /** A field and the '/' or ':' after it. */
  lemma FieldThen(fmt: Format, j: nat, s: string, i: nat, st: Stamp, v: int)
    requires j + 1 < |fmt| && Fits(fmt[j], v) && i + 2 < |s| && TwoAt(s, i, v)
    requires (fmt[j + 1] == Slash && s[i + 2] == '/') || (fmt[j + 1] == Colon && s[i + 2] == ':')
    ensures MatchFrom(fmt[j..], s[i..], st) == MatchFrom(fmt[j + 2..], s[i + 3..], With(fmt[j], st, v))
  {
    Field(fmt, j, s, i, st, v);
    Separator(fmt, j + 1, s, i + 2, With(fmt[j], st, v));
  }

  /** "YYYY HH:MM" at position 6, for a format ending in `Year4, Blank, Hour, Colon, Minute`. */
  lemma YearClockTail(fmt: Format, s: string, st: Stamp, year: int, hour: int, minute: int)
    requires |fmt| == 9 && fmt[4] == Year4 && fmt[5] == Blank && fmt[6] == Hour && fmt[7] == Colon && fmt[8] == Minute
    requires |s| == 16 && FourAt(s, 6, year) && s[10] == ' ' && s[13] == ':' && TwoAt(s, 11, hour) && TwoAt(s, 14, minute)
    requires hour <= 23 && minute <= 59
    ensures MatchFrom(fmt[4..], s[6..], st) == Some(st.(year := year, hour := hour, minute := minute))
  {
    Year(fmt, 4, s, 6, st, year);
    ClockTail(fmt, s, st.(year := year), hour, minute);
  }

  /** `%m/%d/%Y %H:%M` reads "MM/DD/YYYY HH:MM". */
  lemma LongYearReads(s: string, st: Stamp)
    requires DateClockShape(s, st.month, st.day, st.year, st.hour, st.minute)
    requires 1 <= st.month <= 12 && 1 <= st.day <= 31 && st.hour <= 23 && st.minute <= 59 && st.second == 0
    ensures MatchFrom(LongYear, s, Default) == Some(st)
  {
    var md := Default.(month := st.month, day := st.day);
    TwoFieldsSlashed(LongYear, s, st.month, st.day);
    YearClockTail(LongYear, s, md, st.year, st.hour, st.minute);
  }

  /** `%d/%m/%Y %H:%M` reads "DD/MM/YYYY HH:MM". */
  lemma DayFirstReads(s: string, st: Stamp)
    requires DateClockShape(s, st.day, st.month, st.year, st.hour, st.minute)
    requires 1 <= st.month <= 12 && 1 <= st.day <= 31 && st.hour <= 23 && st.minute <= 59 && st.second == 0
    ensures MatchFrom(DayFirst, s, Default) == Some(st)
  {
    var dm := Default.(day := st.day, month := st.month);
    TwoFieldsSlashed(DayFirst, s, st.day, st.month);
    YearClockTail(DayFirst, s, dm, st.year, st.hour, st.minute);
  }

  /** A four-digit year defeats both `%y` formats. */
  lemma ShortYearFormatsMiss(s: string, month: int, day: int, year: int, hour: int, minute: int)
    requires DateClockShape(s, month, day, year, hour, minute)
    requires 1 <= month <= 12 && 1 <= day <= 31
    ensures forall j :: 0 <= j < 2 ==> Match(DateFormats[j], s).None?
  {
    forall j | 0 <= j < 2
      ensures Match(DateFormats[j], s).None?
    {
      if j == 0 {
        assert DateFormats[0] == ShortYearMeridiem;
      } else {
        assert DateFormats[1] == ShortYear;
      }
      ShortYearMisses(DateFormats[j], s, month, day, year);
    }
  }

  lemma ShortYearMisses(fmt: Format, s: string, month: int, day: int, year: int)
    requires |fmt| > 4 && fmt[0] == Month && fmt[1] == Slash && fmt[2] == Day && fmt[3] == Slash && fmt[4] == Year2
    requires |s| >= 6 && s[2] == '/' && s[5] == '/' && TwoAt(s, 0, month) && TwoAt(s, 3, day) && FourAt(s, 6, year)
    requires 1 <= month <= 12 && 1 <= day <= 31
    ensures Match(fmt, s) == None
  {
    TwoFieldsSlashed(fmt, s, month, day);
    YearTwoMisses(fmt, 4, s, 6, Default.(month := month, day := day), year);
  }

  /** A leading number above twelve is no month. */
  lemma NoSuchMonth(fmt: Format, s: string, v: int)
    requires |fmt| > 0 && fmt[0] == Month && TwoAt(s, 0, v) && v > 12
    ensures Match(fmt, s) == None
  {
    Whole(fmt, s);
    FieldMisses(fmt, 0, s, 0, Default, v);
  }

  /** The first four date formats all open with the month. */
  lemma MonthFirstDateFormats(j: nat)
    requires j < 4
    ensures |DateFormats[j]| > 0 && DateFormats[j][0] == Month
  {
    if j == 0 {
      assert DateFormats[0] == ShortYearMeridiem;
    } else if j == 1 {
      assert DateFormats[1] == ShortYear;
    } else if j == 2 {
      assert DateFormats[2] == LongYear;
    } else {
      assert DateFormats[3] == DateOnly;
    }
  }

  /** The first three time formats all open with the month. */
  lemma MonthFirstTimeFormats(j: nat)
    requires j < 3
    ensures |TimeFormats[j]| > 1 && TimeFormats[j][0] == Month && TimeFormats[j][1] == Slash
  {
    if j == 0 {
      assert TimeFormats[0] == ShortYearMeridiem;
    } else if j == 1 {
      assert TimeFormats[1] == ShortYear;
    } else {
      assert TimeFormats[2] == LongYear;
    }
  }

  // ---------------------------------------------------------------- the cascade

  /** A month-first "MM/DD/YYYY HH:MM" is decided by `%m/%d/%Y %H:%M`, so an ambiguous
      day and month is always read month first. */
  lemma MonthFirstWins(s: string, st: Stamp)
    requires !IsBlank(s) && Valid(st) && st.second == 0
    requires DateClockShape(s, st.month, st.day, st.year, st.hour, st.minute)
    ensures VisitDate(s) == Ok(IsoDate(st))
  {
    ShortYearFormatsMiss(s, st.month, st.day, st.year, st.hour, st.minute);
    LongYearReads(s, st);
    assert DateFormats[2] == LongYear;
    FirstMatchWins(DateFormats, s, 2);
  }

  lemma MonthFirstDateFormatsMiss(s: string, v: int)
    requires TwoAt(s, 0, v) && v > 12
    ensures forall j :: 0 <= j < 4 ==> Match(DateFormats[j], s).None?
  {
    forall j | 0 <= j < 4
      ensures Match(DateFormats[j], s).None?
    {
      MonthFirstDateFormats(j);
      NoSuchMonth(DateFormats[j], s, v);
    }
  }

  /** When the leading number cannot be a month only `%d/%m/%Y %H:%M` is left. */
  lemma DayFirstFallback(s: string, st: Stamp)
    requires !IsBlank(s) && Valid(st) && st.second == 0 && st.day > 12
    requires DateClockShape(s, st.day, st.month, st.year, st.hour, st.minute)
    ensures VisitDate(s) == Ok(IsoDate(st))
  {
    MonthFirstDateFormatsMiss(s, st.day);
    DayFirstReads(s, st);
    assert DateFormats[4] == DayFirst;
    FirstMatchWins(DateFormats, s, 4);
  }

  // ---------------------------------------------------------------- printing

  lemma PadTwo(v: nat, a: char, b: char)
    requires 10 <= v < 100 && IsDigit(a) && IsDigit(b)
    requires DigitValue(a) == v / 10 && DigitValue(b) == v % 10
    ensures Pad(v, 2) == [a, b]
  {
    assert DigitChar(v / 10) == a && DigitChar(v % 10) == b;
    assert Pad(v / 10, 1) == [a];
  }

  lemma PadOne(v: nat, b: char)
    requires v < 10 && IsDigit(b) && DigitValue(b) == v
    ensures Pad(v, 2) == ['0', b]
  {
    assert DigitChar(0) == '0' && DigitChar(v) == b;
    assert Pad(0, 1) == ['0'];
  }

  lemma Printed2020()
    ensures Pad(2020, 4) == "2020"
  {
    PadTwo(20, '2', '0');
    assert Pad(202, 3) == "202";
  }

  /** `strftime("%Y-%m-%d")` from the printed fields. */
  lemma PrintedDate(st: Stamp, y: string, m: string, d: string)
    requires Valid(st) && Pad(st.year, 4) == y && Pad(st.month, 2) == m && Pad(st.day, 2) == d
    ensures IsoDate(st) == y + "-" + m + "-" + d
  {
  }

  lemma PrintedMarch4(st: Stamp)
    requires st == Stamp(2020, 3, 4, 10, 0, 0)
    ensures IsoDate(st) == "2020-03-04"
  {
    Printed2020();
    PadOne(3, '3');
    PadOne(4, '4');
    PrintedDate(st, "2020", "03", "04");
  }

  lemma PrintedChristmas(st: Stamp)
    requires st == Stamp(2020, 12, 25, 10, 0, 0)
    ensures IsoDate(st) == "2020-12-25"
  {
    Printed2020();
    PadTwo(12, '1', '2');
    PadTwo(25, '2', '5');
    PrintedDate(st, "2020", "12", "25");
  }

  // ---------------------------------------------------------------- concrete strings

  lemma MonthFirstAt(s: string, st: Stamp)
    requires s == "03/04/2020 10:00" && st == Stamp(2020, 3, 4, 10, 0, 0)
    ensures VisitDate(s) == Ok(IsoDate(st))
  {
    assert s[0] == '0' && s[1] == '3' && s[3] == '0' && s[4] == '4';
    assert s[6] == '2' && s[7] == '0' && s[8] == '2' && s[9] == '0';
    assert s[11] == '1' && s[12] == '0' && s[14] == '0' && s[15] == '0';
    assert !IsBlank(s) by {
      assert !IsSpace(s[0]);
    }
    MonthFirstWins(s, st);
  }

  /** Month first wins: "03/04/2020 10:00" is the 4th of March, not the 3rd of April. */
  lemma MonthFirstExample()
    ensures VisitDate("03/04/2020 10:00") == Ok("2020-03-04")
  {
    MonthFirstAt("03/04/2020 10:00", Stamp(2020, 3, 4, 10, 0, 0));
    PrintedMarch4(Stamp(2020, 3, 4, 10, 0, 0));
  }

  lemma DayFirstAt(s: string, st: Stamp)
    requires s == "25/12/2020 10:00" && st == Stamp(2020, 12, 25, 10, 0, 0)
    ensures VisitDate(s) == Ok(IsoDate(st))
  {
    assert s[0] == '2' && s[1] == '5' && s[3] == '1' && s[4] == '2';
    assert s[6] == '2' && s[7] == '0' && s[8] == '2' && s[9] == '0';
    assert s[11] == '1' && s[12] == '0' && s[14] == '0' && s[15] == '0';
    assert !IsBlank(s) by {
      assert !IsSpace(s[0]);
    }
    DayFirstFallback(s, st);
  }

  /** Day first is the last resort: "25/12/2020 10:00" cannot be month first, so it is
      read as the 25th of December. */
  lemma DayFirstExample()
    ensures VisitDate("25/12/2020 10:00") == Ok("2020-12-25")
  {
    DayFirstAt("25/12/2020 10:00", Stamp(2020, 12, 25, 10, 0, 0));
    PrintedChristmas(Stamp(2020, 12, 25, 10, 0, 0));
  }

  /** The "No Iniciado" placeholder, in any letter case, is an empty time. */
  lemma NotStartedExample()
    ensures Time("No Iniciado") == Ok("")
    ensures Time("NO INICIADO") == Ok("")
  {
    assert Lower("No Iniciado") == "no iniciado";
    assert Lower("NO INICIADO") == "no iniciado";
  }

  // ---------------------------------------------------------------- a clock with %p

  /** "HH:MM:SS AM" / "HH:MM:SS PM" read by `%H:%M:%S %p`: the hour is taken as written. */
  lemma ClockMeridiemReads(s: string, hour: int, minute: int, second: int)
    requires |s| == 11 && s[2] == ':' && s[5] == ':' && s[8] == ' ' && IsMeridiem(s[9], s[10])
    requires TwoAt(s, 0, hour) && TwoAt(s, 3, minute) && TwoAt(s, 6, second)
    requires hour <= 23 && minute <= 59 && second <= 61
    ensures MatchFrom(ClockMeridiem, s, Default) == Some(Default.(hour := hour, minute := minute, second := second))
  {
    var fmt := ClockMeridiem;
    var h := Default.(hour := hour);
    var hm := h.(minute := minute);
    Whole(fmt, s);
    FieldThen(fmt, 0, s, 0, Default, hour);
    FieldThen(fmt, 2, s, 3, h, minute);
    SecondsMeridiem(s, hm, second);
  }

  /** "SS AM" closing `%H:%M:%S %p`. */
  lemma SecondsMeridiem(s: string, st: Stamp, second: int)
    requires |s| == 11 && s[8] == ' ' && IsMeridiem(s[9], s[10]) && TwoAt(s, 6, second) && second <= 61
    ensures MatchFrom(ClockMeridiem[4..], s[6..], st) == Some(st.(second := second))
  {
    var fmt := ClockMeridiem;
    Field(fmt, 4, s, 6, st, second);
    assert !IsSpace(s[9]) by {
      assert LowerChar(s[9]) == 'a' || LowerChar(s[9]) == 'p';
    }
    OneBlank(fmt, 5, s, 8, st.(second := second));
    MeridiemEnd(fmt, s, st.(second := second));
  }

  /** Two digits and then ':' defeat every format that opens with "%m/". */
  lemma NoSlashAfterMonth(fmt: Format, s: string, v: int)
    requires |fmt| > 1 && fmt[0] == Month && fmt[1] == Slash
    requires TwoAt(s, 0, v) && 1 <= v <= 12 && |s| > 2 && s[2] == ':'
    ensures Match(fmt, s) == None
  {
    Whole(fmt, s);
    Field(fmt, 0, s, 0, Default, v);
    SlashMisses(fmt, 1, s, 2, With(Month, Default, v));
  }

  lemma MonthFirstTimeFormatsMiss(s: string, v: int)
    requires TwoAt(s, 0, v) && 1 <= v <= 12 && |s| > 2 && s[2] == ':'
    ensures forall j :: 0 <= j < 3 ==> Match(TimeFormats[j], s).None?
  {
    forall j | 0 <= j < 3
      ensures Match(TimeFormats[j], s).None?
    {
      MonthFirstTimeFormats(j);
      NoSlashAfterMonth(TimeFormats[j], s, v);
    }
  }

  /** A twelve-hour clock string falls through to `%H:%M:%S %p`, which keeps the hour
      as written and ignores the meridiem. */
  lemma ClockMeridiemWins(s: string, st: Stamp)
    requires !IsBlank(s) && !IsNotStarted(s)
    requires st == Default.(hour := st.hour, minute := st.minute, second := st.second)
    requires 1 <= st.hour <= 12 && st.minute <= 59 && st.second <= 59
    requires |s| == 11 && s[2] == ':' && s[5] == ':' && s[8] == ' ' && IsMeridiem(s[9], s[10])
    requires TwoAt(s, 0, st.hour) && TwoAt(s, 3, st.minute) && TwoAt(s, 6, st.second)
    ensures Time(s) == Ok(Clock(st))
  {
    MonthFirstTimeFormatsMiss(s, st.hour);
    ClockMeridiemReads(s, st.hour, st.minute, st.second);
    assert TimeFormats[3] == ClockMeridiem;
    FirstMatchWins(TimeFormats, s, 3);
  }

  lemma PrintedClock(st: Stamp, h: string, m: string)
    requires Valid(st) && Pad(st.hour, 2) == h && Pad(st.minute, 2) == m
    ensures Clock(st) == h + ":" + m
  {
  }

  lemma ClockAt(s: string, st: Stamp)
    requires s == "10:15:00 PM" && st == Stamp(1900, 1, 1, 10, 15, 0)
    ensures Time(s) == Ok(Clock(st))
  {
    assert s[0] == '1' && s[1] == '0' && s[3] == '1' && s[4] == '5' && s[6] == '0' && s[7] == '0';
    assert s[9] == 'P' && s[10] == 'M';
    assert !IsBlank(s) by {
      assert !IsSpace(s[0]);
    }
    assert !IsNotStarted(s) by {
      assert Lower(s)[0] == '1';
    }
    ClockMeridiemWins(s, st);
  }

  lemma PrintedTenFifteen(st: Stamp)
    requires st == Stamp(1900, 1, 1, 10, 15, 0)
    ensures Clock(st) == "10:15"
  {
    PadTwo(10, '1', '0');
    PadTwo(15, '1', '5');
    PrintedClock(st, "10", "15");
  }

  /** "10:15:00 PM" becomes "10:15": with %H the PM marker does not move the hour. */
  lemma ClockMeridiemExample()
    ensures Time("10:15:00 PM") == Ok("10:15")
  {
    ClockAt("10:15:00 PM", Stamp(1900, 1, 1, 10, 15, 0));
    PrintedTenFifteen(Stamp(1900, 1, 1, 10, 15, 0));
  }
}
