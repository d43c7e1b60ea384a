/** `is_valid_date_format`: whether `datetime.strptime(s, "%d-%m-%Y")` succeeds.

    `strptime` first matches the whole string against the pattern built from
    the format. The day field `%d` is `3[01]|[12]\d|0[1-9]|[1-9]| [1-9]`, the month
    field `%m` is `1[0-2]|0[1-9]|[1-9]`, and the year field `%Y` is `\d\d\d\d`,
    separated by literal dashes. Any text after the year is an error
    ("unconverted data remains"). It then builds a date, which must pass the
    calendar check in `Calendar.ValidDate`.

    The day and month fields may be a single digit (`5-3-2024`), and the day may
    be a space followed by a digit (` 5-03-2024`). Only the year needs a fixed
    width. Neither field can contain a dash, so the two separators are the
    string's first two dashes. */
module DateFormat {
  import opened Wrappers
  import opened Calendar

  predicate IsDigit(c: char) {
    '0' <= c <= '9'
  }

  predicate AllDigits(t: string) {
    forall i :: 0 <= i < |t| ==> IsDigit(t[i])
  }

  function DigitValue(c: char): (v: nat)
    requires IsDigit(c)
    ensures v < 10
  {
    c as int - '0' as int
  }

  function DigitChar(v: nat): (c: char)
    requires v < 10
    ensures IsDigit(c)
    ensures DigitValue(c) == v
  {
    ('0' as int + v) as char
  }

  function Pow10(n: nat): (p: nat)
    ensures p >= 1
  {
    if n == 0 then 1 else 10 * Pow10(n - 1)
  }

  /** The number a run of decimal digits denotes, most significant first. */
  function DigitsValue(t: string): (v: nat)
    requires AllDigits(t)
    ensures v < Pow10(|t|)
  {
    if |t| == 0 then 0
    else 10 * DigitsValue(t[..|t| - 1]) + DigitValue(t[|t| - 1])
  }

  /** `n` written in decimal with exactly `width` digits, zero-padded on the
      left (higher digits are dropped when `n` does not fit). */
  function Pad(n: nat, width: nat): (t: string)
    ensures |t| == width
    ensures AllDigits(t)
  {
    if width == 0 then []
    else Pad(n / 10, width - 1) + [DigitChar(n % 10)]
  }

  /** Reading back a padded number gives the number, when it fits. */
  lemma {:induction false} PadValue(n: nat, width: nat)
    requires n < Pow10(width)
    ensures DigitsValue(Pad(n, width)) == n
  {
    if width > 0 {
      var t := Pad(n, width);
      var q := n / 10;
      assert n == 10 * q + n % 10;
      assert q < Pow10(width - 1);
      assert t[..|t| - 1] == Pad(q, width - 1);
      PadValue(q, width - 1);
    }
  }

  /** Padding the value of a run of digits to its own width gives the run back. */
  lemma {:induction false} ValuePad(t: string)
    requires AllDigits(t)
    ensures Pad(DigitsValue(t), |t|) == t
  {
    if |t| > 0 {
      var init := t[..|t| - 1];
      var v := DigitsValue(t);
      assert v / 10 == DigitsValue(init) && v % 10 == DigitValue(t[|t| - 1]);
      ValuePad(init);
      assert DigitChar(DigitValue(t[|t| - 1])) == t[|t| - 1];
      assert t == init + [t[|t| - 1]];
    }
  }

  /** Position of the first `c` in `s`, if any. */
  function IndexOf(s: string, c: char): (r: Option<nat>)
    ensures r.Some? ==> r.value < |s| && s[r.value] == c && c !in s[..r.value]
    ensures r.None? ==> c !in s
  {
    if |s| == 0 then None
    else if s[0] == c then Some(0)
    else match IndexOf(s[1..], c)
      case None => None
      case Some(i) =>
        assert s[..i + 1] == [s[0]] + s[1..][..i];
        Some(i + 1)
  }

  /** The `%d` field: `3[01]|[12]\d|0[1-9]|[1-9]| [1-9]`. */
  function ParseDay(t: string): (r: Option<int>)
    ensures r.Some? ==> 1 <= r.value <= 31
  {
    if |t| == 1 && '1' <= t[0] <= '9' then Some(DigitValue(t[0]))
    else if |t| == 2 && t[0] == ' ' && '1' <= t[1] <= '9' then Some(DigitValue(t[1]))
    else if |t| == 2 && AllDigits(t) && 1 <= DigitsValue(t) <= 31 then Some(DigitsValue(t))
    else None
  }

  /** The `%m` field: `1[0-2]|0[1-9]|[1-9]`. */
  function ParseMonth(t: string): (r: Option<int>)
    ensures r.Some? ==> 1 <= r.value <= 12
  {
    if |t| == 1 && '1' <= t[0] <= '9' then Some(DigitValue(t[0]))
    else if |t| == 2 && AllDigits(t) && 1 <= DigitsValue(t) <= 12 then Some(DigitsValue(t))
    else None
  }

  /** The `%Y` field: `\d\d\d\d`. */
  function ParseYear(t: string): (r: Option<int>)
    ensures r.Some? ==> 0 <= r.value <= 9999
  {
    if |t| == 4 && AllDigits(t) then Some(DigitsValue(t)) else None
  }

  /** `s` cut at its first two dashes into the day, month and year texts. */
  function SplitFields(s: string): (r: Option<(string, string, string)>)
    ensures r.Some? ==> s == r.value.0 + "-" + r.value.1 + "-" + r.value.2
    ensures r.Some? ==> '-' !in r.value.0 && '-' !in r.value.1
  {
    match IndexOf(s, '-')
    case None => None
    case Some(i) =>
      var rest := s[i + 1..];
      match IndexOf(rest, '-')
      case None => None
      case Some(j) =>
        CutAtDash(s, i);
        CutAtDash(rest, j);
        JoinRegroup(s[..i], rest[..j], rest[j + 1..]);
        Some((s[..i], rest[..j], rest[j + 1..]))
  }

  lemma {:induction false} CutAtDash(s: string, i: nat)
    requires i < |s| && s[i] == '-'
    ensures s == s[..i] + "-" + s[i + 1..]
  {
    assert s[..i] + "-" + s[i + 1..] == s[..i] + [s[i]] + s[i + 1..];
  }

  lemma {:induction false} JoinRegroup(a: string, b: string, c: string)
    ensures a + "-" + (b + "-" + c) == a + "-" + b + "-" + c
  {
  }

  /** The fields `strptime(s, "%d-%m-%Y")` reads from `s`, before any calendar
      check; `None` when the string does not have the shape of the format. */
  function ParseDate(s: string): (r: Option<Date>)
  {
    match SplitFields(s)
    case None => None
    case Some((dt, mt, yt)) =>
      var day, month, year := ParseDay(dt), ParseMonth(mt), ParseYear(yt);
      if day.Some? && month.Some? && year.Some? then
        Some(Date(day.value, month.value, year.value))
      else None
  }

  /** `is_valid_date_format` (Code.py): the string has the shape of the format
      and names a real date. */
  predicate IsValidDateFormat(s: string) {
    var r := ParseDate(s);
    r.Some? && ValidDate(r.value)
  }

  // ---------------------------------------------------------------------------
  // Reference description of the accepted strings

  /** Every spelling `%d` accepts for `day`: two digits, and for days below 10
      also one digit or a space and one digit. */
  function DayTexts(day: int): set<string> {
    (if 1 <= day <= 31 then {Pad(day, 2)} else {})
    + (if 1 <= day <= 9 then {[DigitChar(day)], [' ', DigitChar(day)]} else {})
  }

  /** Every spelling `%m` accepts for `month`: two digits, or one digit below 10. */
  function MonthTexts(month: int): set<string> {
    (if 1 <= month <= 12 then {Pad(month, 2)} else {})
    + (if 1 <= month <= 9 then {[DigitChar(month)]} else {})
  }

  /** The one spelling `%Y` accepts for `year`: four digits. */
  function YearTexts(year: int): set<string> {
    if 0 <= year <= 9999 then {Pad(year, 4)} else {}
  }

  /** `s` is one of the ways of writing the fields of `d` in the format. */
  predicate Spells(s: string, d: Date) {
    exists dt, mt, yt | dt in DayTexts(d.day) && mt in MonthTexts(d.month) && yt in YearTexts(d.year) ::
      s == dt + "-" + mt + "-" + yt
  }

  /** The zero-padded `DD-MM-YYYY` spelling of a date. */
  function Format(d: Date): (s: string)
    requires 1 <= d.day <= 31 && 1 <= d.month <= 12 && 0 <= d.year <= 9999
    ensures Spells(s, d)
  {
    var s := Pad(d.day, 2) + "-" + Pad(d.month, 2) + "-" + Pad(d.year, 4);
    assert Pad(d.day, 2) in DayTexts(d.day);
    assert Pad(d.month, 2) in MonthTexts(d.month);
    assert Pad(d.year, 4) in YearTexts(d.year);
    s
  }

  // ---------------------------------------------------------------------------
  // Field parsers against their spellings

  lemma {:induction false} DayTextsNoDash(day: int, t: string)
    requires t in DayTexts(day)
    ensures '-' !in t
  {
    if 1 <= day <= 31 && t == Pad(day, 2) {
      assert AllDigits(t);
    }
  }

  lemma {:induction false} MonthTextsNoDash(month: int, t: string)
    requires t in MonthTexts(month)
    ensures '-' !in t
  {
    if 1 <= month <= 12 && t == Pad(month, 2) {
      assert AllDigits(t);
    }
  }

  /** `ParseDay` reads `day` from exactly the spellings of `day`. */
  lemma {:induction false} ParseDayTexts(t: string, day: int)
    ensures ParseDay(t) == Some(day) <==> t in DayTexts(day)
  {
    if ParseDay(t) == Some(day) {
      if |t| == 1 {
        assert t == [DigitChar(day)];
      } else if t[0] == ' ' {
        assert t == [' ', DigitChar(day)];
      } else {
        ValuePad(t);
      }
    }
    if t in DayTexts(day) {
      if 1 <= day <= 31 && t == Pad(day, 2) {
        PadValue(day, 2);
        assert IsDigit(t[0]);
      }
    }
  }

  /** `ParseMonth` reads `month` from exactly the spellings of `month`. */
  lemma {:induction false} ParseMonthTexts(t: string, month: int)
    ensures ParseMonth(t) == Some(month) <==> t in MonthTexts(month)
  {
    if ParseMonth(t) == Some(month) {
      if |t| == 1 {
        assert t == [DigitChar(month)];
      } else {
        ValuePad(t);
      }
    }
    if t in MonthTexts(month) {
      if 1 <= month <= 12 && t == Pad(month, 2) {
        PadValue(month, 2);
      }
    }
  }

  /** `ParseYear` reads `year` from exactly the spelling of `year`. */
  lemma {:induction false} ParseYearTexts(t: string, year: int)
    ensures ParseYear(t) == Some(year) <==> t in YearTexts(year)
  {
    if ParseYear(t) == Some(year) {
      ValuePad(t);
    }
    if t in YearTexts(year) {
      PadValue(year, 4);
    }
  }

  /** The first `c` in `a + [c] + b` is at `|a|` when `a` holds no `c`. */
  lemma {:induction false} IndexOfJoin(a: string, c: char, b: string)
    requires c !in a
    ensures IndexOf(a + [c] + b, c) == Some(|a|)
  {
    var s := a + [c] + b;
    assert s[|a|] == c;
    assert s[..|a|] == a;
  }

  /** Joining dash-free day and month texts to a year text and splitting again
      gives the three texts back. */
  lemma {:induction false} SplitJoin(dt: string, mt: string, yt: string)
    requires '-' !in dt && '-' !in mt
    ensures SplitFields(dt + "-" + mt + "-" + yt) == Some((dt, mt, yt))
  {
    var s := dt + "-" + mt + "-" + yt;
    assert s == dt + ['-'] + (mt + "-" + yt);
    IndexOfJoin(dt, '-', mt + "-" + yt);
    var rest := s[|dt| + 1..];
    assert rest == mt + ['-'] + yt;
    IndexOfJoin(mt, '-', yt);
    assert s[..|dt|] == dt;
    assert rest[..|mt|] == mt;
    assert rest[|mt| + 1..] == yt;
  }

  // ---------------------------------------------------------------------------
  // The accepted strings

  /** Parsing succeeds on a spelling of `d` and gives `d` back. */
  lemma {:induction false} ParseSpelling(d: Date, dt: string, mt: string, yt: string)
    requires dt in DayTexts(d.day) && mt in MonthTexts(d.month) && yt in YearTexts(d.year)
    ensures ParseDate(dt + "-" + mt + "-" + yt) == Some(d)
  {
    DayTextsNoDash(d.day, dt);
    MonthTextsNoDash(d.month, mt);
    SplitJoin(dt, mt, yt);
    ParseDayTexts(dt, d.day);
    ParseMonthTexts(mt, d.month);
    ParseYearTexts(yt, d.year);
  }

  /** What `ParseDate` reads, it reads from a spelling of the result. */
  lemma {:induction false} ParsedIsSpelled(s: string)
    requires ParseDate(s).Some?
    ensures Spells(s, ParseDate(s).value)
  {
    var d := ParseDate(s).value;
    var (dt, mt, yt) := SplitFields(s).value;
    ParseDayTexts(dt, d.day);
    ParseMonthTexts(mt, d.month);
    ParseYearTexts(yt, d.year);
  }

  /** `ParseDate` yields `d` from exactly the spellings of `d`: the lenient
      shape `strptime` accepts, no more and no less. */
  lemma {:induction false} ParseDateSpells(s: string, d: Date)
    ensures ParseDate(s) == Some(d) <==> Spells(s, d)
  {
    if ParseDate(s) == Some(d) {
      ParsedIsSpelled(s);
    }
    if Spells(s, d) {
      var dt, mt, yt :| dt in DayTexts(d.day) && mt in MonthTexts(d.month) && yt in YearTexts(d.year)
                         && s == dt + "-" + mt + "-" + yt;
      ParseSpelling(d, dt, mt, yt);
    }
  }

  /** A string passes `is_valid_date_format` exactly when it spells a real date. */
  lemma ValidFormatIffSpellsValidDate(s: string)
    ensures IsValidDateFormat(s) <==> exists d :: ValidDate(d) && Spells(s, d)
  {
    if IsValidDateFormat(s) {
      ParseDateSpells(s, ParseDate(s).value);
    }
    if d :| ValidDate(d) && Spells(s, d) {
      ParseDateSpells(s, d);
    }
  }

  /** The zero-padded spelling of a date parses back to that date, so it is
      accepted exactly when the date is real. */
  lemma FormatRoundTrip(d: Date)
    requires 1 <= d.day <= 31 && 1 <= d.month <= 12 && 0 <= d.year <= 9999
    ensures ParseDate(Format(d)) == Some(d)
    ensures IsValidDateFormat(Format(d)) <==> ValidDate(d)
  {
    ParseDateSpells(Format(d), d);
  }
}
