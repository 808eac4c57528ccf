/**
 * The RFC 3339 text of an instant: its shape, what its fields say, and that the order of the texts
 * is the order of the instants.
 */
module Timestamp {
  import opened Text
  import opened CivilDate

  function Zeros(n: nat): string { if n == 0 then "" else "0" + Zeros(n - 1) }

  /** Rust's `{:0w$}`: at least `w` digits. */
  function Pad(n: nat, w: nat): string { Zeros(if |Dec(n)| < w then w - |Dec(n)| else 0) + Dec(n) }

  function AsNat(n: int): nat { if n < 0 then 0 else n }

  function FormatEpochUtc(secs: nat): string {
    var rem := secs % 86400;
    var d := Civil(secs / 86400);
    Pad(AsNat(d.year), 4) + ("-" + (Pad(AsNat(d.month), 2) + ("-" + (Pad(AsNat(d.day), 2)
    + ("T" + (Pad(rem / 3600, 2) + (":" + (Pad(rem % 3600 / 60, 2) + (":" + (Pad(rem % 60, 2) + "Z"))))))))))
  }

  // ---- the calendar moves forward ----

  predicate DateLess(a: Date, b: Date) {
    a.year < b.year || (a.year == b.year && (a.month < b.month || (a.month == b.month && a.day < b.day)))
  }

  lemma NextDayLater(d: Date)
    requires ValidDate(d)
    ensures DateLess(d, NextDay(d))
  {
  }

  lemma {:induction false} CalendarIncreases(a: nat, b: nat)
    requires a < b
    ensures DateLess(Calendar(a), Calendar(b))
    decreases b
  {
    CivilIsCalendar(b - 1);
    assert Calendar(b) == NextDay(Calendar(b - 1));
    hide Civil, Calendar, DaysIn;
    NextDayLater(Calendar(b - 1));
    if a < b - 1 {
      CalendarIncreases(a, b - 1);
    }
  }

  lemma {:induction false} CalendarFromEpoch(n: nat)
    ensures Calendar(n).year >= 1970
  {
    if n > 0 {
      CalendarIncreases(0, n);
    }
  }

  // ---- counting days back ----

  /** Days from 1 January 1970 to 1 January of `y`, year by year. */
  function DaysToYear(y: int): nat {
    if y <= 1970 then 0 else DaysToYear(y - 1) + (if IsLeap(y - 1) then 366 else 365)
  }

  /** Days of year `y` before month `m`, month by month. */
  function DaysToMonth(y: int, m: int): nat {
    if m <= 1 then 0 else DaysToMonth(y, m - 1) + AsNat(DaysIn(y, m - 1))
  }

  function DayNumber(d: Date): int { DaysToYear(d.year) + DaysToMonth(d.year, d.month) + d.day - 1 }

  lemma YearInMonths(y: int)
    ensures DaysToMonth(y, 12) + 31 == if IsLeap(y) then 366 else 365
  {
    assert DaysToMonth(y, 2) == 31;
    assert DaysToMonth(y, 3) == 31 + AsNat(DaysIn(y, 2));
    assert DaysToMonth(y, 4) == DaysToMonth(y, 3) + 31;
    assert DaysToMonth(y, 5) == DaysToMonth(y, 4) + 30;
    assert DaysToMonth(y, 6) == DaysToMonth(y, 5) + 31;
    assert DaysToMonth(y, 7) == DaysToMonth(y, 6) + 30;
    assert DaysToMonth(y, 8) == DaysToMonth(y, 7) + 31;
    assert DaysToMonth(y, 9) == DaysToMonth(y, 8) + 31;
    assert DaysToMonth(y, 10) == DaysToMonth(y, 9) + 30;
    assert DaysToMonth(y, 11) == DaysToMonth(y, 10) + 31;
    assert DaysToMonth(y, 12) == DaysToMonth(y, 11) + 30;
  }

  lemma NextDayNumber(d: Date)
    requires ValidDate(d) && d.year >= 1970
    ensures DayNumber(NextDay(d)) == DayNumber(d) + 1
  {
    if d.day == DaysIn(d.year, d.month) && d.month == 12 {
      YearInMonths(d.year);
      assert DaysToMonth(d.year + 1, 1) == 0;
    }
  }

  /** Counting the days of years and months back from the closed-form date gives the day count. */
  lemma {:induction false} CivilInverse(n: nat)
    ensures DayNumber(Civil(n)) == n
  {
    CivilIsCalendar(n);
    CalendarNumber(n);
  }

  lemma EpochNumber()
    ensures DayNumber(EPOCH) == 0
  {
    assert DaysToYear(1970) == 0 && DaysToMonth(1970, 1) == 0;
  }

  lemma {:induction false} CalendarNumber(n: nat)
    ensures DayNumber(Calendar(n)) == n
  {
    if n == 0 {
      hide DayNumber;
      EpochNumber();
    } else {
      CalendarNumber(n - 1);
      CalendarStep(n);
      hide *;
      NextDayNumber(Calendar(n - 1));
    }
  }

  lemma CalendarStep(n: nat)
    requires n > 0
    ensures var d := Calendar(n - 1); ValidDate(d) && d.year >= 1970 && Calendar(n) == NextDay(d)
  {
    hide Civil, NextDay, ValidDate;
    CivilIsCalendar(n - 1);
    CalendarFromEpoch(n - 1);
  }

  function PreviousDay(d: Date): Date {
    if d.day > 1 then Date(d.year, d.month, d.day - 1)
    else if d.month > 1 then Date(d.year, d.month - 1, DaysIn(d.year, d.month - 1))
    else Date(d.year - 1, 12, 31)
  }

  lemma PreviousThenNext(d: Date)
    requires ValidDate(d) && d.year >= 1970 && d != EPOCH
    ensures var p := PreviousDay(d); ValidDate(p) && p.year >= 1970 && NextDay(p) == d
  {
  }

  lemma PreviousEarlier(d: Date)
    requires ValidDate(d)
    ensures DateLess(PreviousDay(d), d)
  {
  }

  /** Every date from the epoch on is the date of exactly one day. */
  lemma {:induction false} CivilOnto(d: Date)
    requires ValidDate(d) && d.year >= 1970
    ensures DayNumber(d) >= 0 && Civil(DayNumber(d)) == d
    decreases d.year, d.month, d.day
  {
    if d == EPOCH {
      EpochNumber();
      CivilIsCalendar(0);
    } else {
      var p := PreviousDay(d);
      PreviousThenNext(d);
      PreviousEarlier(d);
      hide NextDay, DaysIn, IsLeap, Civil, DayNumber, PreviousDay;
      CivilOnto(p);
      NextDayNumber(p);
      CivilStep(DayNumber(p));
    }
  }

  // ---- fixed-width digits ----

  function Pow10(w: nat): nat { if w == 0 then 1 else 10 * Pow10(w - 1) }

  /** The last `w` decimal digits. */
  function Fixed(n: nat, w: nat): (s: string)
    ensures |s| == w && AllDigits(s)
  {
    if w == 0 then "" else Fixed(n / 10, w - 1) + [Digit(n % 10)]
  }

  lemma {:induction false} ZerosFixed(w: nat)
    ensures Fixed(0, w) == Zeros(w) && |Zeros(w)| == w
  {
    if w > 0 {
      ZerosFixed(w - 1);
      ZerosSnoc(w - 1);
    }
  }

  lemma {:induction false} ZerosSnoc(n: nat)
    ensures Zeros(n + 1) == Zeros(n) + "0"
  {
    if n > 0 {
      ZerosSnoc(n - 1);
      Assoc("0", Zeros(n - 1), "0");
    }
  }

  /** Padding is fixed-width writing, for numbers that fit. */
  lemma {:induction false} PadIsFixed(n: nat, w: nat)
    requires w > 0 && n < Pow10(w)
    ensures |Dec(n)| <= w && Pad(n, w) == Fixed(n, w)
  {
    if n < 10 {
      ZerosFixed(w - 1);
      ZerosFixed(0);
      assert n / 10 == 0 && n % 10 == n;
      assert Zeros(w - 1) + Dec(n) == Fixed(n, w);
      assert w == 1 ==> Zeros(0) + Dec(n) == Dec(n);
    } else {
      assert w > 1;
      PadIsFixed(n / 10, w - 1);
      Assoc(Zeros(w - 1 - |Dec(n / 10)|), Dec(n / 10), [Digit(n % 10)]);
    }
  }

  lemma SnocValue(s: string, d: nat)
    requires AllDigits(s) && d < 10
    ensures AllDigits(s + [Digit(d)]) && DigitsValue(s + [Digit(d)]) == 10 * DigitsValue(s) + d
  {
    var t := s + [Digit(d)];
    assert t[..|t| - 1] == s && t[|t| - 1] == Digit(d);
  }

  lemma {:induction false} FixedValue(n: nat, w: nat)
    requires n < Pow10(w)
    ensures DigitsValue(Fixed(n, w)) == n
  {
    if w > 0 {
      FixedValue(n / 10, w - 1);
      hide DigitsValue, Digit, AllDigits;
      SnocValue(Fixed(n / 10, w - 1), n % 10);
    }
  }

  // ---- the last year with four digits ----

  /** Second 253402300800 begins year 10000. */
  const YEAR_10000 := 253_402_300_800

  lemma LastDayBeforeLimit()
    ensures Civil(2932896) == Date(9999, 12, 31)
  {
    assert 3652364 / 146097 == 24 && 3652364 - 24 * 146097 == 146036;
    assert YearOfEra(146036) == 399;
    assert MonthDay(9999, 305) == Date(9999, 12, 31);
  }

  /** Year 10000 begins at second 253402300800. */
  lemma YearLimit(secs: nat)
    ensures Civil(secs / 86400).year < 10000 <==> secs < YEAR_10000
  {
    hide Civil, Calendar;
    var n := secs / 86400;
    LastDayBeforeLimit();
    CivilStep(2932896);
    CivilIsCalendar(n);
    CivilIsCalendar(2932896);
    CivilIsCalendar(2932897);
    if n < 2932896 {
      CalendarIncreases(n, 2932896);
    }
    if n > 2932897 {
      CalendarIncreases(2932897, n);
    }
  }

  // ---- the text of an instant ----

  function Fields(y: nat, mo: nat, d: nat, h: nat, mi: nat, s: nat): string {
    Fixed(y, 4) + ("-" + (Fixed(mo, 2) + ("-" + (Fixed(d, 2)
    + ("T" + (Fixed(h, 2) + (":" + (Fixed(mi, 2) + (":" + (Fixed(s, 2) + "Z"))))))))))
  }

  lemma Powers()
    ensures Pow10(2) == 100 && Pow10(4) == 10000
  {
  }

  lemma FormatIsFields(secs: nat)
    requires secs < YEAR_10000
    ensures var d, rem := Civil(secs / 86400), secs % 86400;
            && 1970 <= d.year && ValidDate(d)
            && FormatEpochUtc(secs) == Fields(d.year, d.month, d.day, rem / 3600, rem % 3600 / 60, rem % 60)
  {
    YearLimit(secs);
    hide Civil, Fixed, Pad, Pow10;
    var d, rem := Civil(secs / 86400), secs % 86400;
    CivilIsCalendar(secs / 86400);
    CalendarFromEpoch(secs / 86400);
    Powers();
    PadIsFixed(d.year, 4);
    PadIsFixed(d.month, 2);
    PadIsFixed(d.day, 2);
    PadIsFixed(rem / 3600, 2);
    PadIsFixed(rem % 3600 / 60, 2);
    PadIsFixed(rem % 60, 2);
  }

  /** The `date-time` shape of section 5.6 of RFC 3339, in UTC and without fractions. */
  predicate IsDateTime(s: string) {
    && |s| == 20 && s[4] == '-' && s[7] == '-' && s[10] == 'T' && s[13] == ':' && s[16] == ':' && s[19] == 'Z'
    && AllDigits(s[..4]) && AllDigits(s[5..7]) && AllDigits(s[8..10])
    && AllDigits(s[11..13]) && AllDigits(s[14..16]) && AllDigits(s[17..19])
    && ValidDate(Date(DigitsValue(s[..4]), DigitsValue(s[5..7]), DigitsValue(s[8..10])))
    && DigitsValue(s[11..13]) < 24 && DigitsValue(s[14..16]) < 60 && DigitsValue(s[17..19]) < 60
  }

  /** The instant a date-time names, by counting days and seconds. */
  function Instant(s: string): int
    requires IsDateTime(s)
  {
    DayNumber(Date(DigitsValue(s[..4]), DigitsValue(s[5..7]), DigitsValue(s[8..10]))) * 86400
    + DigitsValue(s[11..13]) * 3600 + DigitsValue(s[14..16]) * 60 + DigitsValue(s[17..19])
  }

  lemma TimePart(h: string, mi: string, s: string)
    requires |h| == 2 && |mi| == 2 && |s| == 2
    ensures var u := "T" + (h + (":" + (mi + (":" + (s + "Z")))));
            |u| == 10 && u[0] == 'T' && u[3] == ':' && u[6] == ':' && u[9] == 'Z'
            && u[1..3] == h && u[4..6] == mi && u[7..9] == s
  {
  }

  lemma DatePart(y: string, mo: string, d: string, u: string)
    requires |y| == 4 && |mo| == 2 && |d| == 2
    ensures var t := y + ("-" + (mo + ("-" + (d + u))));
            |t| == 10 + |u| && t[4] == '-' && t[7] == '-' && t[..4] == y && t[5..7] == mo && t[8..10] == d
            && t[10..] == u
  {
  }

  lemma FieldPositions(y: nat, mo: nat, d: nat, h: nat, mi: nat, s: nat)
    ensures var t := Fields(y, mo, d, h, mi, s);
            && |t| == 20 && t[4] == '-' && t[7] == '-' && t[10] == 'T' && t[13] == ':' && t[16] == ':' && t[19] == 'Z'
            && t[..4] == Fixed(y, 4) && t[5..7] == Fixed(mo, 2) && t[8..10] == Fixed(d, 2)
            && t[11..13] == Fixed(h, 2) && t[14..16] == Fixed(mi, 2) && t[17..19] == Fixed(s, 2)
  {
    hide Fixed;
    var u := "T" + (Fixed(h, 2) + (":" + (Fixed(mi, 2) + (":" + (Fixed(s, 2) + "Z")))));
    TimePart(Fixed(h, 2), Fixed(mi, 2), Fixed(s, 2));
    DatePart(Fixed(y, 4), Fixed(mo, 2), Fixed(d, 2), u);
    Inside(Fields(y, mo, d, h, mi, s), u);
  }

  lemma Inside(t: string, u: string)
    requires |t| == 20 && |u| == 10 && t[10..] == u
    ensures t[11..13] == u[1..3] && t[14..16] == u[4..6] && t[17..19] == u[7..9]
    ensures t[10] == u[0] && t[13] == u[3] && t[16] == u[6] && t[19] == u[9]
  {
  }

  /** A text of the right shape, from what its fields read as. */
  lemma ReadInstant(t: string, d: Date, h: nat, mi: nat, sec: nat)
    requires |t| == 20 && t[4] == '-' && t[7] == '-' && t[10] == 'T' && t[13] == ':' && t[16] == ':' && t[19] == 'Z'
    requires Reads(t[..4], d.year) && Reads(t[5..7], d.month) && Reads(t[8..10], d.day)
    requires Reads(t[11..13], h) && Reads(t[14..16], mi) && Reads(t[17..19], sec)
    requires ValidDate(d) && h < 24 && mi < 60 && sec < 60
    ensures IsDateTime(t) && Instant(t) == DayNumber(d) * 86400 + h * 3600 + mi * 60 + sec
  {
    hide DayNumber, AllDigits, DigitsValue, ValidDate;
    assert d == Date(d.year, d.month, d.day);
  }

  predicate Reads(s: string, n: int) { AllDigits(s) && DigitsValue(s) == n }

  lemma FixedReads(n: nat, w: nat)
    requires n < Pow10(w)
    ensures Reads(Fixed(n, w), n)
  {
    FixedValue(n, w);
  }

  lemma FieldsNameInstant(d: Date, h: nat, mi: nat, sec: nat)
    requires ValidDate(d) && 0 <= d.year < 10000 && h < 24 && mi < 60 && sec < 60
    ensures var t := Fields(d.year, d.month, d.day, h, mi, sec);
            IsDateTime(t) && Instant(t) == DayNumber(d) * 86400 + h * 3600 + mi * 60 + sec
  {
    Powers();
    assert d.month < 100 && 0 <= d.day < 100;
    hide *;
    FieldPositions(d.year, d.month, d.day, h, mi, sec);
    FixedReads(d.year, 4);
    FixedReads(d.month, 2);
    FixedReads(d.day, 2);
    FixedReads(h, 2);
    FixedReads(mi, 2);
    FixedReads(sec, 2);
    ReadInstant(Fields(d.year, d.month, d.day, h, mi, sec), d, h, mi, sec);
  }

  lemma Mod60(k: nat, r: nat)
    ensures (60 * k + r) % 60 == r % 60
  {
  }

  /** A time of day is its hour, minute and second. */
  lemma DayParts(rem: nat)
    requires rem < 86400
    ensures rem == rem / 3600 * 3600 + rem % 3600 / 60 * 60 + rem % 60
    ensures rem / 3600 < 24 && rem % 3600 / 60 < 60
  {
    var h, r := rem / 3600, rem % 3600;
    assert rem == 60 * (60 * h) + r && r < 3600;
    Mod60(60 * h, r);
  }

  lemma ClockParts(secs: nat)
    ensures var rem := secs % 86400;
            && secs == secs / 86400 * 86400 + rem / 3600 * 3600 + rem % 3600 / 60 * 60 + rem % 60
            && rem / 3600 < 24 && rem % 3600 / 60 < 60 && rem % 60 < 60
  {
    DayParts(secs % 86400);
  }

  /** Before year 10000 the text is an RFC 3339 date-time, and it names the instant it was made from. */
  lemma FormatNamesInstant(secs: nat)
    requires secs < YEAR_10000
    ensures IsDateTime(FormatEpochUtc(secs)) && Instant(FormatEpochUtc(secs)) == secs
  {
    var d, rem := Civil(secs / 86400), secs % 86400;
    hide *;
    YearLimit(secs);
    FormatIsFields(secs);
    CivilInverse(secs / 86400);
    ClockParts(secs);
    FieldsNameInstant(d, rem / 3600, rem % 3600 / 60, rem % 60);
  }

  // ---- order ----

  predicate LexLess(a: string, b: string) {
    b != "" && (a == "" || a[0] < b[0] || (a[0] == b[0] && LexLess(a[1..], b[1..])))
  }

  lemma {:induction false} LexPrefix(p: string, a: string, b: string)
    ensures LexLess(p + a, p + b) <==> LexLess(a, b)
  {
    if p == "" {
      assert p + a == a && p + b == b;
    } else {
      CutTail(p, a);
      CutTail(p, b);
      LexPrefix(p[1..], a, b);
    }
  }

  /** Fixed-width numbers compare as texts like they compare as numbers. */
  lemma {:induction false} FixedLess(m: nat, n: nat, w: nat, a: string, b: string)
    requires m < n < Pow10(w)
    ensures LexLess(Fixed(m, w) + a, Fixed(n, w) + b)
  {
    var x, y := [Digit(m % 10)] + a, [Digit(n % 10)] + b;
    Assoc(Fixed(m / 10, w - 1), [Digit(m % 10)], a);
    Assoc(Fixed(n / 10, w - 1), [Digit(n % 10)], b);
    if m / 10 < n / 10 {
      FixedLess(m / 10, n / 10, w - 1, x, y);
    } else {
      DigitOrder(m % 10, n % 10);
      LexPrefix(Fixed(m / 10, w - 1), x, y);
    }
  }

  lemma DigitOrder(a: nat, b: nat)
    requires a < b < 10
    ensures Digit(a) < Digit(b)
  {
  }

  /** A number, a separator and the rest. */
  function Field(n: nat, w: nat, c: string, rest: string): string { Fixed(n, w) + (c + rest) }

  /** One field in front of the rest: the field decides, or the rest does. */
  lemma FieldLess(m: nat, n: nat, w: nat, c: string, a: string, b: string)
    requires m < Pow10(w) && n < Pow10(w)
    requires m < n || (m == n && LexLess(a, b))
    ensures LexLess(Field(m, w, c, a), Field(n, w, c, b))
  {
    if m < n {
      FixedLess(m, n, w, c + a, c + b);
    } else {
      LexPrefix(c, a, b);
      LexPrefix(Fixed(m, w), c + a, c + b);
    }
  }

  function Clock(h: nat, mi: nat, s: nat): string { Field(h, 2, ":", Field(mi, 2, ":", Field(s, 2, "Z", ""))) }

  lemma FieldsNest(y: nat, mo: nat, d: nat, h: nat, mi: nat, s: nat)
    ensures Fields(y, mo, d, h, mi, s) == Field(y, 4, "-", Field(mo, 2, "-", Field(d, 2, "T", Clock(h, mi, s))))
  {
    hide Fixed;
    assert "Z" + "" == "Z";
  }

  lemma FieldsLess(a: Date, p: nat, b: Date, q: nat)
    requires ValidDate(a) && ValidDate(b) && 0 <= a.year < 10000 && 0 <= b.year < 10000 && p < 86400 && q < 86400
    requires DateLess(a, b) || (a == b && p < q)
    ensures LexLess(Fields(a.year, a.month, a.day, p / 3600, p % 3600 / 60, p % 60),
                    Fields(b.year, b.month, b.day, q / 3600, q % 3600 / 60, q % 60))
  {
    FieldsNest(a.year, a.month, a.day, p / 3600, p % 3600 / 60, p % 60);
    FieldsNest(b.year, b.month, b.day, q / 3600, q % 3600 / 60, q % 60);
    Powers();
    hide Field, Fields, Clock, LexLess, Pow10;
    var h, h' := Clock(p / 3600, p % 3600 / 60, p % 60), Clock(q / 3600, q % 3600 / 60, q % 60);
    var d, d' := Field(a.day, 2, "T", h), Field(b.day, 2, "T", h');
    var mo, mo' := Field(a.month, 2, "-", d), Field(b.month, 2, "-", d');
    if a == b {
      TimeLess(p, q);
    }
    if a.year == b.year && a.month == b.month {
      FieldLess(a.day, b.day, 2, "T", h, h');
    }
    if a.year == b.year {
      FieldLess(a.month, b.month, 2, "-", d, d');
    }
    FieldLess(a.year, b.year, 4, "-", mo, mo');
  }

  /** Instants of a day are in order of hour, minute and second. */
  lemma ClockOrder(p: nat, q: nat)
    requires p < q < 86400
    ensures var (h, mi, h', mi') := (p / 3600, p % 3600 / 60, q / 3600, q % 3600 / 60);
            h < h' || (h == h' && (mi < mi' || (mi == mi' && p % 60 < q % 60)))
  {
    DayParts(p);
    DayParts(q);
  }

  lemma ClockLess(h: nat, mi: nat, s: nat, h': nat, mi': nat, s': nat)
    requires h < 100 && mi < 100 && s < 100 && h' < 100 && mi' < 100 && s' < 100
    requires h < h' || (h == h' && (mi < mi' || (mi == mi' && s < s')))
    ensures LexLess(Clock(h, mi, s), Clock(h', mi', s'))
  {
    Powers();
    hide Field, LexLess, Pow10;
    var a, b := Field(s, 2, "Z", ""), Field(s', 2, "Z", "");
    if h == h' && mi == mi' {
      FieldLess(s, s', 2, "Z", "", "");
    }
    if h == h' {
      FieldLess(mi, mi', 2, ":", a, b);
    }
    FieldLess(h, h', 2, ":", Field(mi, 2, ":", a), Field(mi', 2, ":", b));
  }

  lemma TimeLess(p: nat, q: nat)
    requires p < q < 86400
    ensures LexLess(Clock(p / 3600, p % 3600 / 60, p % 60), Clock(q / 3600, q % 3600 / 60, q % 60))
  {
    hide Clock, LexLess;
    ClockOrder(p, q);
    ClockLess(p / 3600, p % 3600 / 60, p % 60, q / 3600, q % 3600 / 60, q % 60);
  }

  lemma {:induction false} LexAsymmetric(a: string, b: string)
    requires LexLess(a, b)
    ensures !LexLess(b, a)
  {
    if a != "" && a[0] == b[0] {
      LexAsymmetric(a[1..], b[1..]);
    }
  }

  lemma FormatIncreases(p: nat, q: nat)
    requires p < q < YEAR_10000
    ensures LexLess(FormatEpochUtc(p), FormatEpochUtc(q))
  {
    hide Civil, FormatEpochUtc, Fields, LexLess, Calendar;
    YearLimit(p);
    YearLimit(q);
    FormatIsFields(p);
    FormatIsFields(q);
    CivilIsCalendar(p / 86400);
    CivilIsCalendar(q / 86400);
    if p / 86400 < q / 86400 {
      CalendarIncreases(p / 86400, q / 86400);
    }
    FieldsLess(Civil(p / 86400), p % 86400, Civil(q / 86400), q % 86400);
  }

  /** Before year 10000 timestamps sort as texts exactly like the instants they name. */
  lemma FormatKeepsOrder(p: nat, q: nat)
    requires p < YEAR_10000 && q < YEAR_10000
    ensures LexLess(FormatEpochUtc(p), FormatEpochUtc(q)) <==> p < q
    ensures FormatEpochUtc(p) == FormatEpochUtc(q) <==> p == q
  {
    hide FormatEpochUtc, LexLess;
    FormatNamesInstant(p);
    FormatNamesInstant(q);
    if p < q {
      FormatIncreases(p, q);
    } else if q < p {
      FormatIncreases(q, p);
      LexAsymmetric(FormatEpochUtc(q), FormatEpochUtc(p));
    } else if LexLess(FormatEpochUtc(p), FormatEpochUtc(q)) {
      LexAsymmetric(FormatEpochUtc(p), FormatEpochUtc(q));
    }
  }
}
