/** The date-fns format patterns the calendar uses: 'HH:mm', 'yyyy-MM-dd',
    'd', 'MMM d', and the English weekday and month names behind 'EEEE' and
    'MMMM' of the default (en-US) locale. */
module DateFormat {
  import opened Wrappers
  import opened CivilDate
  import opened TextFormat

  /** 'HH:mm': the hour and the minute, two digits each. */
  function Clock(t: DateTime): (s: string)
    ensures |s| == 5 && s[2] == ':'
  {
    DecimalWidth(t.hour, 2);
    DecimalWidth(t.minute, 2);
    Decimal(t.hour, 2) + ":" + Decimal(t.minute, 2)
  }

  /** Reading the two fields of 'HH:mm' back gives the hour and the minute. */
  lemma ClockFields(t: DateTime)
    ensures var s := Clock(t);
      && (forall i :: 0 <= i < 2 ==> IsDigit(s[i]))
      && (forall i :: 3 <= i < 5 ==> IsDigit(s[i]))
      && DigitsValue(s[..2]) == t.hour && DigitsValue(s[3..]) == t.minute
  {
    var h := Decimal(t.hour, 2);
    var m := Decimal(t.minute, 2);
    DecimalWidth(t.hour, 2);
    DecimalWidth(t.minute, 2);
    var s := h + ":" + m;
    assert s[..2] == h;
    assert s[3..] == m;
    DecimalValue(t.hour, 2);
    DecimalValue(t.minute, 2);
  }

  /** The year of the era that 'y' renders: years before 1 count back from 1 BC. */
  function EraYear(y: int): (e: nat)
    ensures e >= 1
    ensures y >= 1 ==> e == y
  {
    if y > 0 then y else 1 - y
  }

  /** 'yyyy': the era year, zero-padded to at least four digits. */
  function Year4(y: int): (s: string)
    ensures |s| >= 4
  {
    Decimal(EraYear(y), 4)
  }

  /** 'yyyy-MM-dd' of day n. */
  function IsoDate(n: Day): (s: string)
    ensures |s| >= 10
  {
    var c := CivilOf(n);
    Year4(c.year) + "-" + Decimal(c.month, 2) + "-" + Decimal(c.day, 2)
  }

  predicate AllDigits(s: string) {
    forall i :: 0 <= i < |s| ==> IsDigit(s[i])
  }

  /** Reads a 'yyyy-MM-dd' string back into the calendar day it names; None for
      anything else, including a nonexistent date. */
  function ParseIsoDate(s: string): (r: Option<Day>)
    ensures r.Some? ==> |s| == 10 && s[4] == '-' && s[7] == '-'
    ensures r.Some? ==> IsoDate(r.value) == s
  {
    if |s| == 10 && s[4] == '-' && s[7] == '-'
       && AllDigits(s[..4]) && AllDigits(s[5..7]) && AllDigits(s[8..])
       && DigitsValue(s[..4]) >= 1
    then
      var d := Date(DigitsValue(s[..4]), DigitsValue(s[5..7]), DigitsValue(s[8..]));
      if Valid(d) then
        IsoDateOfValid(s, d);
        Some(DayNumber(d))
      else None
    else None
  }

  /** The rendering of a date read from s is s itself. */
  lemma IsoDateOfValid(s: string, d: Date)
    requires |s| == 10 && s[4] == '-' && s[7] == '-'
    requires AllDigits(s[..4]) && AllDigits(s[5..7]) && AllDigits(s[8..])
    requires d == Date(DigitsValue(s[..4]), DigitsValue(s[5..7]), DigitsValue(s[8..]))
    requires Valid(d) && d.year >= 1
    ensures IsoDate(DayNumber(d)) == s
  {
    CivilOfDayNumber(d);
    DigitsRender(s[..4]);
    DigitsRender(s[5..7]);
    DigitsRender(s[8..]);
    assert s == s[..4] + "-" + s[5..7] + "-" + s[8..];
  }

  /** A string of k digits is the k-wide rendering of its value. */
  lemma {:induction false} DigitsRender(s: string)
    requires |s| >= 1 && AllDigits(s)
    ensures DigitsValue(s) < Pow10(|s|)
    ensures Decimal(DigitsValue(s), |s|) == s
    decreases |s|
  {
    var last := s[|s| - 1] as int - '0' as int;
    if |s| == 1 {
      assert s[..0] == [];
      assert s == [DigitChar(last)];
    } else {
      var init := s[..|s| - 1];
      DigitsRender(init);
      var v := DigitsValue(s);
      assert v == 10 * DigitsValue(init) + last;
      assert v / 10 == DigitsValue(init) && v % 10 == last;
      assert s == init + [DigitChar(last)];
    }
  }

  /** The file-name date reads back as the day it was rendered from, for the
      years 1 to 9999 that 'yyyy' renders in exactly four digits. */
  lemma IsoDateRoundTrip(n: Day)
    requires 1 <= CivilOf(n).year <= 9999
    ensures ParseIsoDate(IsoDate(n)) == Some(n)
  {
    var c := CivilOf(n);
    DecimalWidth(c.year, 4);
    DecimalWidth(c.month, 2);
    DecimalWidth(c.day, 2);
    DecimalValue(c.year, 4);
    DecimalValue(c.month, 2);
    DecimalValue(c.day, 2);
    ParseFields(Year4(c.year), Decimal(c.month, 2), Decimal(c.day, 2), c);
  }

  /** Three digit fields of widths 4, 2 and 2 joined by '-' read back as the
      date they denote, when it exists. */
  lemma ParseFields(ys: string, ms: string, ds: string, d: Date)
    requires |ys| == 4 && |ms| == 2 && |ds| == 2
    requires AllDigits(ys) && AllDigits(ms) && AllDigits(ds)
    requires DigitsValue(ys) == d.year >= 1 && DigitsValue(ms) == d.month && DigitsValue(ds) == d.day
    requires Valid(d)
    ensures ParseIsoDate(ys + "-" + ms + "-" + ds) == Some(DayNumber(d))
  {
    var s := ys + "-" + ms + "-" + ds;
    assert s[..4] == ys;
    assert s[5..7] == ms;
    assert s[8..] == ds;
    assert s[4] == '-' && s[7] == '-';
    assert Date(DigitsValue(s[..4]), DigitsValue(s[5..7]), DigitsValue(s[8..])) == d;
  }

  /** 'EEEE' in en-US, by weekday number (0 = Sunday). */
  function WeekdayName(w: int): string
    requires 0 <= w < 7
  {
    ["Sunday", "Monday", "Tuesday", "Wednesday", "Thursday", "Friday", "Saturday"][w]
  }

  /** 'MMMM' in en-US. */
  function MonthName(m: int): string
    requires 1 <= m <= 12
  {
    ["January", "February", "March", "April", "May", "June", "July",
     "August", "September", "October", "November", "December"][m - 1]
  }

  /** 'MMM' in en-US. */
  function MonthAbbrev(m: int): (s: string)
    requires 1 <= m <= 12
    ensures s == MonthName(m)[..3]
  {
    ["Jan", "Feb", "Mar", "Apr", "May", "Jun", "Jul",
     "Aug", "Sep", "Oct", "Nov", "Dec"][m - 1]
  }

  /** Different weekdays and different months have different names. */
  lemma NamesDistinct()
    ensures forall v, w :: 0 <= v < 7 && 0 <= w < 7 && WeekdayName(v) == WeekdayName(w) ==> v == w
    ensures forall a, b :: 1 <= a <= 12 && 1 <= b <= 12 && MonthName(a) == MonthName(b) ==> a == b
  {
  }
}
