/** The closed-form Gregorian conversions of src/utils/time.rs, proved equal to the calendar itself. */
module Calendar {

  datatype Date = Date(year: int, month: int, day: int)

  // ---------------------------------------------------------------------------------------------
  // The reference: the proleptic Gregorian calendar, told one day at a time.

  predicate IsLeap(y: int) {
    y % 4 == 0 && (y % 100 != 0 || y % 400 == 0)
  }

  function MonthLength(y: int, m: int): int {
    if m == 2 then (if IsLeap(y) then 29 else 28)
    else if m == 4 || m == 6 || m == 9 || m == 11 then 30
    else 31
  }

  predicate ValidDate(c: Date) {
    1 <= c.month <= 12 && 1 <= c.day <= MonthLength(c.year, c.month)
  }

  function NextDay(c: Date): Date {
    if c.day < MonthLength(c.year, c.month) then c.(day := c.day + 1)
    else if c.month < 12 then Date(c.year, c.month + 1, 1)
    else Date(c.year + 1, 1, 1)
  }

  /** The date reached by stepping n times from 1970-01-01. */
  function DateAfter(n: nat): Date {
    if n == 0 then Date(1970, 1, 1) else NextDay(DateAfter(n - 1))
  }

  predicate Before(a: Date, b: Date) {
    a.year < b.year || (a.year == b.year && (a.month < b.month || (a.month == b.month && a.day < b.day)))
  }

  // ---------------------------------------------------------------------------------------------
  // The source's conversions. Rust's `/` truncates toward zero.

  const U32 := 0x1_0000_0000

  function TruncDiv(a: int, b: int): int
    requires b > 0
  {
    if a >= 0 then a / b else -((-a) / b)
  }

  function YearStart(yoe: int): int { 365 * yoe + yoe / 4 - yoe / 100 }

  function MonthStart(mp: int): int { (153 * mp + 2) / 5 }

  function EraYear(doe: int): int {
    (doe - doe / 1460 + doe / 36_524 - doe / 146_096) / 365
  }

  /** The civil date of day doy of the year that starts in March of year y. */
  function FromMarch(y: int, doy: int): Date {
    var mp := (5 * doy + 2) / 153;
    var d := doy - MonthStart(mp) + 1;
    var m := if mp < 10 then mp + 3 else mp - 9;
    Date(if m <= 2 then y + 1 else y, m, d)
  }

  /** The civil date of day doe of a 400-year era. */
  function FromEra(era: int, doe: int): Date {
    var yoe := EraYear(doe);
    FromMarch(yoe + era * 400, doe - YearStart(yoe))
  }

  function CivilFromDays(days: int): Date {
    var z := days + 719_468;
    var era := TruncDiv(if z >= 0 then z else z - 146_096, 146_097);
    FromEra(era, z - era * 146_097)
  }

  /** Month and day are unsigned 32-bit in the source and wrap there; the year is a signed word. */
  function DaysFromCivil(c: Date): int {
    var y := if c.month <= 2 then c.year - 1 else c.year;
    var era := TruncDiv(if y >= 0 then y else y - 399, 400);
    var yoe := y - era * 400;
    var mp := ((c.month + 9) % U32) % 12;
    var doy := (MonthStart(mp) + c.day - 1) % U32;
    var doe := YearStart(yoe) + doy;
    era * 146_097 + doe - 719_468
  }

  // ---------------------------------------------------------------------------------------------
  // Within one 400-year era.

  /** Day s of the four-year group q of century c: the three correction terms leave the right year. */
  lemma EraYearSplit(doe: int, c: int, q: int, s: int)
    requires doe == 36_524 * c + 1461 * q + s
    requires 0 <= c <= 3 && 0 <= q <= 24 && 0 <= s <= (if q == 24 then 1459 else 1460)
    ensures EraYear(doe) == 100 * c + 4 * q + if s == 1460 then 3 else s / 365
  {
    var e := if 24 * c + q + s >= 1460 then 1 else 0;
    assert doe / 36_524 == c;
    assert doe / 1460 == 25 * c + q + e;
    assert doe - doe / 1460 + c == 365 * (100 * c + 4 * q) + (s - e);
    assert (s - e) / 365 == if s == 1460 then 3 else s / 365;
  }

  lemma YearStartSplit(c: int, q: int, k: int)
    requires 0 <= c <= 3 && 0 <= q <= 24 && 0 <= k <= 3
    ensures YearStart(100 * c + 4 * q + k) == 36_524 * c + 1461 * q + 365 * k
    ensures k == 3 ==> YearStart(100 * c + 4 * q + 4) == 36_524 * c + 1461 * q + 1461 - (if q == 24 then 1 else 0)
  {
  }

  /** The division formula finds the year that holds the day; the last year of an era has one day more. */
  lemma EraYearHolds(doe: int)
    requires 0 <= doe < 146_097
    ensures 0 <= EraYear(doe) < 400
    ensures YearStart(EraYear(doe)) <= doe
    ensures doe < YearStart(EraYear(doe) + 1) + (if EraYear(doe) == 399 then 1 else 0)
  {
    if doe == 146_096 {
      assert EraYear(doe) == 399;
    } else {
      var c, r := doe / 36_524, doe % 36_524;
      var q, s := r / 1461, r % 1461;
      var k := if s == 1460 then 3 else s / 365;
      EraYearSplit(doe, c, q, s);
      YearStartSplit(c, q, k);
      if k < 3 {
        YearStartSplit(c, q, k + 1);
      }
    }
  }

  /** The month formula is right for every day of a year that starts in March. */
  lemma MonthHolds(doy: int)
    requires 0 <= doy <= 365
    ensures 0 <= (5 * doy + 2) / 153 <= 11
    ensures MonthStart((5 * doy + 2) / 153) <= doy < MonthStart((5 * doy + 2) / 153 + 1)
  {
  }

  // ---------------------------------------------------------------------------------------------
  // Both conversions in terms of years that start in March.

  function MarchYear(c: Date): int { if c.month <= 2 then c.year - 1 else c.year }

  function MarchMonth(c: Date): int { if c.month <= 2 then c.month + 9 else c.month - 3 }

  function MarchDay(c: Date): int { MonthStart(MarchMonth(c)) + c.day - 1 }

  /** Day number of the first of March of year y. */
  function MarchFirst(y: int): int { 365 * y + y / 4 - y / 100 + y / 400 - 719_468 }

  lemma MarchFirstByEra(y: int)
    ensures MarchFirst(y) == (y / 400) * 146_097 + YearStart(y % 400) - 719_468
  {
    var era, yoe := y / 400, y % 400;
    assert y / 4 == 100 * era + yoe / 4;
    assert y / 100 == 4 * era + yoe / 100;
  }

  lemma MarchYearLength(y: int)
    ensures MarchFirst(y + 1) - MarchFirst(y) == if IsLeap(y + 1) then 366 else 365
  {
    assert (y + 1) / 4 - y / 4 == if (y + 1) % 4 == 0 then 1 else 0;
    assert (y + 1) / 100 - y / 100 == if (y + 1) % 100 == 0 then 1 else 0;
    assert (y + 1) / 400 - y / 400 == if (y + 1) % 400 == 0 then 1 else 0;
  }

  lemma MarchDayRange(c: Date)
    requires ValidDate(c)
    ensures 0 <= MarchMonth(c) <= 11
    ensures 0 <= MarchDay(c) < if IsLeap(MarchYear(c) + 1) then 366 else 365
  {
  }

  lemma DaysByMarch(c: Date)
    requires 1 <= c.month <= 12 && 1 <= c.day <= 31
    ensures DaysFromCivil(c) == MarchFirst(MarchYear(c)) + MarchDay(c)
  {
    var y := MarchYear(c);
    assert TruncDiv(if y >= 0 then y else y - 399, 400) == y / 400;
    assert ((c.month + 9) % U32) % 12 == MarchMonth(c);
    assert (MonthStart(MarchMonth(c)) + c.day - 1) % U32 == MarchDay(c);
    MarchFirstByEra(y);
  }

  lemma MarchDayFits(c: Date)
    requires ValidDate(c)
    ensures 0 <= MarchDay(c) < MarchFirst(MarchYear(c) + 1) - MarchFirst(MarchYear(c))
  {
    MarchDayRange(c);
    MarchYearLength(MarchYear(c));
  }

  lemma MarchFirstGrows(y: int, y': int)
    requires y < y'
    ensures MarchFirst(y + 1) <= MarchFirst(y')
    decreases y' - y
  {
    if y + 1 < y' {
      MarchFirstGrows(y + 1, y');
      assert MarchFirst(y + 1) <= MarchFirst(y + 2);
    }
  }

  lemma FromMarchIsValid(y: int, doy: int)
    requires 0 <= doy < if IsLeap(y + 1) then 366 else 365
    ensures ValidDate(FromMarch(y, doy))
    ensures MarchYear(FromMarch(y, doy)) == y && MarchDay(FromMarch(y, doy)) == doy
  {
    MonthHolds(doy);
  }

  lemma EraYearOfEra(era: int, yoe: int)
    requires 0 <= yoe < 400
    ensures MarchFirst(yoe + era * 400) == era * 146_097 + YearStart(yoe) - 719_468
    ensures YearStart(yoe + 1) - YearStart(yoe) + (if yoe == 399 then 1 else 0)
         == if IsLeap(yoe + era * 400 + 1) then 366 else 365
  {
    var y := yoe + era * 400;
    assert y / 400 == era && y % 400 == yoe;
    MarchFirstByEra(y);
    MarchFirstByEra(y + 1);
    MarchYearLength(y);
    if yoe == 399 {
      assert (y + 1) / 400 == era + 1 && (y + 1) % 400 == 0;
    } else {
      assert (y + 1) / 400 == era && (y + 1) % 400 == yoe + 1;
    }
  }

  /** The division formulas land in the right year of the era. */
  lemma FromEraByMarch(era: int, doe: int)
    requires 0 <= doe < 146_097
    ensures var c := FromEra(era, doe);
            ValidDate(c) && MarchFirst(MarchYear(c)) + MarchDay(c) == era * 146_097 + doe - 719_468
  {
    EraYearHolds(doe);
    var yoe := EraYear(doe);
    EraYearOfEra(era, yoe);
    FromMarchIsValid(yoe + era * 400, doe - YearStart(yoe));
  }

  lemma FloorByEra(n: int)
    ensures TruncDiv(if n >= 0 then n else n - 146_096, 146_097) == n / 146_097
  {
  }

  lemma CivilByEra(z: int)
    ensures CivilFromDays(z) == FromEra((z + 719_468) / 146_097, (z + 719_468) % 146_097)
  {
    FloorByEra(z + 719_468);
  }

  lemma CivilByMarch(z: int)
    ensures ValidDate(CivilFromDays(z))
    ensures MarchFirst(MarchYear(CivilFromDays(z))) + MarchDay(CivilFromDays(z)) == z
  {
    CivilByEra(z);
    FromEraByMarch((z + 719_468) / 146_097, (z + 719_468) % 146_097);
  }

  // ---------------------------------------------------------------------------------------------
  // The main results.

  lemma BeforeByMarch(a: Date, b: Date)
    requires ValidDate(a) && ValidDate(b)
    ensures Before(a, b) <==>
            MarchYear(a) < MarchYear(b) || (MarchYear(a) == MarchYear(b) && MarchDay(a) < MarchDay(b))
  {
    assert MonthStart(MarchMonth(a)) <= MarchDay(a) < MonthStart(MarchMonth(a) + 1);
    assert MonthStart(MarchMonth(b)) <= MarchDay(b) < MonthStart(MarchMonth(b) + 1);
    if MarchMonth(a) < MarchMonth(b) {
      assert MonthStart(MarchMonth(a) + 1) <= MonthStart(MarchMonth(b));
    } else if MarchMonth(b) < MarchMonth(a) {
      assert MonthStart(MarchMonth(b) + 1) <= MonthStart(MarchMonth(a));
    }
  }

  lemma YearsDoNotOverlap(y: int, d: int, y': int, d': int)
    requires y < y' && d < MarchFirst(y + 1) - MarchFirst(y) && 0 <= d'
    ensures MarchFirst(y) + d < MarchFirst(y') + d'
  {
    MarchFirstGrows(y, y');
  }

  /** Day numbers order valid dates exactly as the calendar does. */
  lemma DaysKeepOrder(a: Date, b: Date)
    requires ValidDate(a) && ValidDate(b)
    ensures Before(a, b) <==> DaysFromCivil(a) < DaysFromCivil(b)
  {
    DaysByMarch(a);
    DaysByMarch(b);
    BeforeByMarch(a, b);
    MarchDayFits(a);
    MarchDayFits(b);
    if MarchYear(a) < MarchYear(b) {
      YearsDoNotOverlap(MarchYear(a), MarchDay(a), MarchYear(b), MarchDay(b));
    } else if MarchYear(b) < MarchYear(a) {
      YearsDoNotOverlap(MarchYear(b), MarchDay(b), MarchYear(a), MarchDay(a));
    }
  }

  lemma DaysInvertCivil(z: int)
    ensures ValidDate(CivilFromDays(z)) && DaysFromCivil(CivilFromDays(z)) == z
  {
    CivilByMarch(z);
    DaysByMarch(CivilFromDays(z));
  }

  lemma CivilInvertsDays(c: Date)
    requires ValidDate(c)
    ensures CivilFromDays(DaysFromCivil(c)) == c
  {
    var z := DaysFromCivil(c);
    DaysInvertCivil(z);
    DaysKeepOrder(c, CivilFromDays(z));
    DaysKeepOrder(CivilFromDays(z), c);
  }

  lemma NextDayByMarch(c: Date)
    requires ValidDate(c)
    ensures ValidDate(NextDay(c))
    ensures if MarchDay(c) + 1 == (if IsLeap(MarchYear(c) + 1) then 366 else 365)
            then MarchYear(NextDay(c)) == MarchYear(c) + 1 && MarchDay(NextDay(c)) == 0
            else MarchYear(NextDay(c)) == MarchYear(c) && MarchDay(NextDay(c)) == MarchDay(c) + 1
  {
  }

  lemma NextDayAddsOne(c: Date)
    requires ValidDate(c)
    ensures ValidDate(NextDay(c)) && DaysFromCivil(NextDay(c)) == DaysFromCivil(c) + 1
  {
    DaysByMarch(c);
    NextDayByMarch(c);
    DaysByMarch(NextDay(c));
    MarchYearLength(MarchYear(c));
  }

  lemma CivilAt(c: Date, z: int)
    requires ValidDate(c) && DaysFromCivil(c) == z
    ensures CivilFromDays(z) == c
  {
    CivilInvertsDays(c);
  }

  /** The closed form steps through the calendar, on both sides of the epoch. */
  lemma CivilStepsByCalendar(z: int)
    ensures CivilFromDays(z + 1) == NextDay(CivilFromDays(z))
  {
    DaysInvertCivil(z);
    var c := CivilFromDays(z);
    NextDayAddsOne(c);
    CivilAt(NextDay(c), z + 1);
  }

  lemma EpochDate()
    ensures CivilFromDays(0) == Date(1970, 1, 1)
  {
  }

  /** So it is the calendar: n days after the epoch is n single steps from 1970-01-01. */
  lemma {:induction false} CivilIsTheCalendar(n: nat)
    ensures CivilFromDays(n) == DateAfter(n)
  {
    var civil := DateAfter(0);
    EpochDate();
    assert civil == CivilFromDays(0);
    for k := 0 to n
      invariant civil == CivilFromDays(k) && civil == DateAfter(k)
    {
      CivilStepsByCalendar(k);
      civil := NextDay(civil);
    }
  }
}
