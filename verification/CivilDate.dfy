/**
 * The creation timestamp. `Civil` is the closed-form date of the code; `Calendar` counts days one by
 * one through the Gregorian calendar. They are the same date for every day.
 */
module CivilDate {

  datatype Date = Date(year: int, month: int, day: int)

  // ---- the calendar ----

  predicate IsLeap(y: int) { y % 4 == 0 && (y % 100 != 0 || y % 400 == 0) }

  function DaysIn(y: int, m: int): int {
    if m == 2 then (if IsLeap(y) then 29 else 28)
    else if m == 4 || m == 6 || m == 9 || m == 11 then 30
    else 31
  }

  predicate ValidDate(d: Date) { 1 <= d.month <= 12 && 1 <= d.day <= DaysIn(d.year, d.month) }

  function NextDay(d: Date): Date {
    if d.day < DaysIn(d.year, d.month) then Date(d.year, d.month, d.day + 1)
    else if d.month < 12 then Date(d.year, d.month + 1, 1)
    else Date(d.year + 1, 1, 1)
  }

  const EPOCH := Date(1970, 1, 1)

  /** The date `n` days after the epoch, counted day by day. */
  function Calendar(n: nat): Date { if n == 0 then EPOCH else NextDay(Calendar(n - 1)) }

  // ---- the closed form ----

  function YearOfEra(doe: int): int { (doe - doe / 1460 + doe / 36524 - doe / 146096) / 365 }

  /** Month and day of a day of a year that starts on 1 March. */
  function MonthDay(y: int, doy: int): Date {
    var mp := (5 * doy + 2) / 153;
    var d := doy - (153 * mp + 2) / 5 + 1;
    var m := if mp < 10 then mp + 3 else mp - 9;
    Date(if m <= 2 then y + 1 else y, m, d)
  }

  function Civil(days: nat): Date {
    var z := days + 719468;
    var era := z / 146097;
    var doe := z - era * 146097;
    var yoe := YearOfEra(doe);
    var doy := doe - (365 * yoe + yoe / 4 - yoe / 100);
    MonthDay(yoe + era * 400, doy)
  }

  // ---- years that start in March ----

  function Before(yoe: int): int { 365 * yoe + yoe / 4 - yoe / 100 }

  /** Days before the March year `y`, from 1 March of year 0. */
  function YearStart(y: int): int { 146097 * (y / 400) + Before(y % 400) }

  function YearLength(y: int): int { if IsLeap(y + 1) then 366 else 365 }

  lemma Mod4(k: int, r: int)
    ensures (4 * k + r) % 4 == r % 4
  {
  }

  lemma Mod100(k: int, r: int)
    ensures (100 * k + r) % 100 == r % 100
  {
  }

  lemma Mod400(k: int, r: int)
    ensures (400 * k + r) % 400 == r % 400
  {
  }

  lemma LeapByRemainder(q: int, r: int)
    ensures IsLeap(400 * q + r) <==> IsLeap(r)
  {
    Mod4(100 * q, r);
    Mod100(4 * q, r);
    Mod400(q, r);
  }

  lemma BeforeStep(r: int)
    requires 0 <= r < 400
    ensures (if r < 399 then Before(r + 1) else 146097) == Before(r) + (if IsLeap(r + 1) then 366 else 365)
  {
    assert (r + 1) / 4 == r / 4 + (if (r + 1) % 4 == 0 then 1 else 0);
    assert (r + 1) / 100 == r / 100 + (if (r + 1) % 100 == 0 then 1 else 0);
  }

  lemma YearStartStep(y: int)
    ensures YearStart(y + 1) == YearStart(y) + YearLength(y)
  {
    var q, r := y / 400, y % 400;
    LeapByRemainder(q, r + 1);
    BeforeStep(r);
    if r < 399 {
      assert (y + 1) / 400 == q && (y + 1) % 400 == r + 1;
    } else {
      assert (y + 1) / 400 == q + 1 && (y + 1) % 400 == 0;
    }
  }

  /** The division chain picks the year of the era the day falls in. */
  lemma YearOfEraSound(doe: int)
    requires 0 <= doe < 146097
    ensures var y := YearOfEra(doe); 0 <= y <= 399 && Before(y) <= doe && (y < 399 ==> doe < Before(y + 1))
  {
    if doe < 146096 {
      var c := doe / 36524;
      var r := doe - 36524 * c;
      var k := r / 1461;
      var s := r - 1461 * k;
      var j := if s / 365 < 4 then s / 365 else 3;
      CycleYear(doe, c, k, s, j);
      CycleBounds(c, k, s, j);
    }
  }

  /** A day split into centuries, four-year cycles and years. */
  lemma CycleYear(doe: int, c: int, k: int, s: int, j: int)
    requires 0 <= c <= 3 && 0 <= k <= 24 && 0 <= s <= 1460 && doe == 36524 * c + 1461 * k + s
    requires 1461 * k + s < 36524
    requires j == if s / 365 < 4 then s / 365 else 3
    ensures YearOfEra(doe) == 100 * c + 4 * k + j
  {
    var e := if 24 * c + k + s >= 1460 then 1 else 0;
    assert doe == 1460 * (25 * c + k + e) + (24 * c + k + s - 1460 * e);
    assert doe / 1460 == 25 * c + k + e;
    assert doe / 36524 == c;
    assert doe / 146096 == 0;
    assert doe - doe / 1460 + doe / 36524 - doe / 146096 == 365 * (100 * c + 4 * k) + (s - e);
    assert (s - e) / 365 == j;
  }

  lemma CycleBounds(c: int, k: int, s: int, j: int)
    requires 0 <= c <= 3 && 0 <= k <= 24 && 0 <= s <= 1460 && 1461 * k + s < 36524
    requires j == if s / 365 < 4 then s / 365 else 3
    ensures var doe, y := 36524 * c + 1461 * k + s, 100 * c + 4 * k + j;
            0 <= y <= 399 && Before(y) <= doe && (y < 399 ==> doe < Before(y + 1))
  {
    var y := 100 * c + 4 * k + j;
    assert 0 <= j <= 3 && y / 4 == 25 * c + k && y / 100 == c;
    assert Before(y) == 36524 * c + 1461 * k + 365 * j;
    if j < 3 {
      assert (y + 1) / 4 == 25 * c + k && (y + 1) / 100 == c;
    } else {
      assert (y + 1) / 4 == 25 * c + k + 1;
      assert (y + 1) / 100 == if k == 24 then c + 1 else c;
    }
  }

  /** The March year and the day of that year the closed form computes. */
  function MarchYear(z: int): int { YearOfEra(z - z / 146097 * 146097) + z / 146097 * 400 }

  /** The year of an era starts as many days in as the era's year does. */
  lemma EraYearStart(era: int, yoe: int)
    requires 0 <= yoe < 400
    ensures YearStart(yoe + era * 400) == 146097 * era + Before(yoe)
  {
    var y := yoe + era * 400;
    assert y / 400 == era && y % 400 == yoe;
  }

  lemma EraYearLength(era: int, yoe: int)
    ensures YearLength(yoe + era * 400) == if IsLeap(yoe + 1) then 366 else 365
  {
    LeapByRemainder(era, yoe + 1);
  }

  lemma MarchYearSound(z: int)
    requires z >= 0
    ensures YearStart(MarchYear(z)) <= z < YearStart(MarchYear(z) + 1)
  {
    hide YearOfEra, YearStart, Before, IsLeap, YearLength;
    var era := z / 146097;
    var doe := z - era * 146097;
    var yoe := YearOfEra(doe);
    YearOfEraSound(doe);
    EraYearStart(era, yoe);
    EraYearLength(era, yoe);
    YearStartStep(yoe + era * 400);
    BeforeStep(yoe);
  }

  lemma CivilFactors(n: nat)
    ensures var z := n + 719468; Civil(n) == MonthDay(MarchYear(z), z - YearStart(MarchYear(z)))
  {
    hide MonthDay, YearOfEra, YearStart;
    var z := n + 719468;
    var era := z / 146097;
    var doe := z - era * 146097;
    YearOfEraSound(doe);
    EraYearStart(era, YearOfEra(doe));
  }

  lemma {:induction false} YearStartMonotone(a: int, b: int)
    requires a < b
    ensures YearStart(a + 1) <= YearStart(b)
    decreases b - a
  {
  }

  // ---- months ----

  lemma MonthDayValid(y: int, doy: int)
    requires 0 <= doy < YearLength(y)
    ensures ValidDate(MonthDay(y, doy))
  {
  }

  lemma MonthDayNext(y: int, doy: int)
    requires 0 <= doy && doy + 1 < YearLength(y)
    ensures MonthDay(y, doy + 1) == NextDay(MonthDay(y, doy))
  {
    var mp, mq := (5 * doy + 2) / 153, (5 * (doy + 1) + 2) / 153;
    assert 0 <= mp <= 11 && (mq == mp || mq == mp + 1);
    assert mq == mp + 1 ==> doy + 1 == (153 * mq + 2) / 5;
    hide IsLeap;
  }

  lemma YearEndNext(y: int)
    ensures MonthDay(y + 1, 0) == NextDay(MonthDay(y, YearLength(y) - 1))
  {
  }

  lemma YearHolds(z: int, y: int)
    requires YearStart(y) <= z < YearStart(y + 1)
    ensures 0 <= z - YearStart(y) < YearLength(y)
  {
    YearStartStep(y);
  }

  /** Days of March years follow one another. */
  lemma NextDayOfYear(y: int, doy: int, y': int, doy': int)
    requires 0 <= doy < YearLength(y) && 0 <= doy' < YearLength(y')
    requires YearStart(y') + doy' == YearStart(y) + doy + 1
    ensures if doy + 1 < YearLength(y) then y' == y && doy' == doy + 1 else y' == y + 1 && doy' == 0
  {
    var s, s' := YearStart(y), YearStart(y');
    YearStartStep(y);
    YearStartStep(y');
    if y' < y {
      YearStartMonotone(y', y);
    } else if y' > y {
      YearStartMonotone(y, y');
      if y' > y + 1 {
        YearStartMonotone(y + 1, y');
        YearStartStep(y + 1);
      }
    }
  }

  lemma MarchStep(y: int, doy: int, y': int, doy': int)
    requires 0 <= doy < YearLength(y)
    requires if doy + 1 < YearLength(y) then y' == y && doy' == doy + 1 else y' == y + 1 && doy' == 0
    ensures ValidDate(MonthDay(y, doy)) && MonthDay(y', doy') == NextDay(MonthDay(y, doy))
  {
    MonthDayValid(y, doy);
    if doy + 1 < YearLength(y) {
      MonthDayNext(y, doy);
    } else {
      YearEndNext(y);
    }
  }

  /** One day later in the closed form is the calendar's next day. */
  lemma CivilStep(n: nat)
    ensures ValidDate(Civil(n)) && Civil(n + 1) == NextDay(Civil(n))
  {
    hide *;
    var z := n + 719468;
    CivilFactors(n);
    CivilFactors(n + 1);
    MarchYearSound(z);
    MarchYearSound(z + 1);
    YearHolds(z, MarchYear(z));
    YearHolds(z + 1, MarchYear(z + 1));
    var y, y' := MarchYear(z), MarchYear(z + 1);
    NextDayOfYear(y, z - YearStart(y), y', z + 1 - YearStart(y'));
    MarchStep(y, z - YearStart(y), y', z + 1 - YearStart(y'));
  }

  lemma CivilZero()
    ensures Civil(0) == EPOCH
  {
    assert 719468 / 146097 == 4 && 719468 - 4 * 146097 == 135080;
    assert YearOfEra(135080) == 369;
  }

  /** The closed form is the calendar, for every day. */
  lemma {:induction false} CivilIsCalendar(n: nat)
    ensures Civil(n) == Calendar(n) && ValidDate(Calendar(n))
  {
    hide Civil, NextDay, ValidDate;
    if n == 0 {
      CivilZero();
      CivilStep(0);
    } else {
      CivilIsCalendar(n - 1);
      CivilStep(n - 1);
      NextDayValid(Calendar(n - 1));
    }
  }

  lemma NextDayValid(d: Date)
    requires ValidDate(d)
    ensures ValidDate(NextDay(d))
  {
  }
}
