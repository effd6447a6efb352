/** RFC 3339 timestamps of src/utils/time.rs: printing, parsing, and the order of the printed form. */
module Timestamps {
  import opened Wrappers
  import opened Text
  import opened Calendar

  const NANOS := 1_000_000_000
  const DAY_SECONDS := 86_400
  const U64 := 0x1_0000_0000_0000_0000
  const I64 := 0x8000_0000_0000_0000

  /** First day of year 10000, where the printed year outgrows the four digits of RFC 3339. */
  const Y10K_DAY := 2_932_897
  const Y10K_MILLIS := Y10K_DAY * 86_400_000

  // ---------------------------------------------------------------------------------------------
  // Printing. An instant is a number of nanoseconds from the Unix epoch.

  function SinceEpoch(t: int): (d: nat) { if t < 0 then 0 else t }

  /** Whole milliseconds since the epoch: what the printed form can show. */
  function Millis(t: int): (m: nat) { SinceEpoch(t) / 1_000_000 }

  function Stamp(date: string, clock: string, millis: string): string {
    date + ['T'] + (clock + ['.'] + millis) + ['Z']
  }

  function Triple(a: nat, b: nat, c: nat, w: nat, sep: char): string {
    Pad(a, w) + [sep] + (Pad(b, 2) + [sep] + Pad(c, 2))
  }

  lemma FirstOfYearTenThousand()
    ensures CivilFromDays(Y10K_DAY) == Date(10_000, 1, 1)
  {
  }

  lemma FirstDays()
    ensures DaysFromCivil(Date(1970, 1, 1)) == 0
    ensures DaysFromCivil(Date(10_000, 1, 1)) == Y10K_DAY
  {
    EpochDate();
    DaysInvertCivil(0);
    FirstOfYearTenThousand();
    DaysInvertCivil(Y10K_DAY);
  }

  lemma CivilSinceEpoch(days: nat)
    ensures ValidDate(CivilFromDays(days)) && CivilFromDays(days).year >= 1970
    ensures days < Y10K_DAY <==> CivilFromDays(days).year < 10_000
  {
    var c := CivilFromDays(days);
    DaysInvertCivil(days);
    FirstDays();
    DaysKeepOrder(c, Date(1970, 1, 1));
    DaysKeepOrder(c, Date(10_000, 1, 1));
  }

  function DateText(days: nat): string {
    var c := CivilFromDays(days);
    CivilSinceEpoch(days);
    Triple(c.year, c.month, c.day, 4, '-')
  }

  function ClockText(secs: nat): string {
    Triple((secs / 3600) % 24, (secs / 60) % 60, secs % 60, 2, ':')
  }

  function FormatRfc3339(t: int): string {
    var secs := SinceEpoch(t) / NANOS;
    var millis := (SinceEpoch(t) % NANOS) / 1_000_000;
    Stamp(DateText(secs / DAY_SECONDS), ClockText(secs), Pad(millis, 3))
  }

  const WINDOWS_TO_UNIX_100NS := 11_644_473_600 * 10_000_000

  /** Nanoseconds since the Unix epoch; the product is taken in a 64-bit word and wraps in the release build. */
  function UnixNanos(ticks: nat): Option<nat> {
    if ticks == 0 || ticks < WINDOWS_TO_UNIX_100NS then None else Some(((ticks - WINDOWS_TO_UNIX_100NS) * 100) % U64)
  }

  /** `ticks` is the high word of the FILETIME times 2^32 plus its low word. */
  function FiletimeToRfc3339(ticks: nat): Option<string> {
    match UnixNanos(ticks)
    case None => None
    case Some(nanos) => Some(FormatRfc3339(nanos))
  }

  // ---------------------------------------------------------------------------------------------
  // Parsing.

  function PartAs(parts: seq<string>, k: nat, low: int, high: int): (r: Option<int>)
    ensures r.Some? ==> low <= r.value < high
  {
    if k < |parts| then ParseInt(parts[k], low, high) else None
  }

  datatype Fields = Fields(date: Date, hour: int, minute: int, second: int)

  function ReadFields(dateParts: seq<string>, timeParts: seq<string>): Option<Fields> {
    var year, month, day := PartAs(dateParts, 0, -I64, I64), PartAs(dateParts, 1, 0, U32), PartAs(dateParts, 2, 0, U32);
    var hour, minute, second := PartAs(timeParts, 0, 0, U64), PartAs(timeParts, 1, 0, U64),
      PartAs(timeParts, 2, 0, U64);
    if year.None? || month.None? || day.None? || hour.None? || minute.None? || second.None? then None else
      Some(Fields(Date(year.value, month.value, day.value), hour.value, minute.value, second.value))
  }

  function SplitFields(s: string): Option<Fields> {
    if s == "" || s[|s| - 1] != 'Z' then None else
      var body := s[..|s| - 1];
      var t := IndexOf(body, 'T');
      if t == |body| then None else
        ReadFields(Split(body[..t], '-'), Split(Split(body[t + 1..], '.')[0], ':'))
  }

  function FieldSeconds(f: Fields): int {
    DaysFromCivil(f.date) * DAY_SECONDS + f.hour * 3600 + f.minute * 60 + f.second
  }

  function ParseEpochSecs(s: string): Option<nat> {
    match SplitFields(s)
    case None => None
    case Some(f) => Some(FieldSeconds(f) % U64)
  }

  // ---------------------------------------------------------------------------------------------
  // Ranges of the printed fields.

  lemma MarchFirstSlope(y: int)
    ensures y >= 0 ==> MarchFirst(y) >= 365 * y - 719_468
  {
  }

  /** A year is at least 365 days, so a 64-bit count of seconds never reaches a year beyond a signed word. */
  lemma YearFits(days: nat)
    requires days < U64
    ensures CivilFromDays(days).year < I64
  {
    var c := CivilFromDays(days);
    CivilByMarch(days);
    MarchFirstSlope(MarchYear(c));
    MarchDayFits(c);
  }

  // ---------------------------------------------------------------------------------------------
  // Round trip.

  lemma DigitsLack(s: string, c: char)
    requires AllDigits(s) && !IsDigit(c)
    ensures c !in s
  {
  }

  lemma ParseTriple(a: nat, b: nat, c: nat, w: nat, sep: char)
    requires !IsDigit(sep) && w > 0
    ensures Split(Pad(a, w) + [sep] + (Pad(b, 2) + [sep] + Pad(c, 2)), sep) == [Pad(a, w), Pad(b, 2), Pad(c, 2)]
  {
    DigitsLack(Pad(a, w), sep);
    DigitsLack(Pad(b, 2), sep);
    DigitsLack(Pad(c, 2), sep);
    SplitAfter(Pad(a, w), sep, Pad(b, 2) + [sep] + Pad(c, 2));
    SplitAfter(Pad(b, 2), sep, Pad(c, 2));
  }

  lemma ClockSplits(secs: nat)
    ensures ((secs / 3600) % 24) * 3600 + ((secs / 60) % 60) * 60 + secs % 60 == secs % DAY_SECONDS
  {
    var minutes, hours := secs / 60, secs / 3600;
    assert hours == minutes / 60;
    assert secs / DAY_SECONDS == hours / 24;
  }

  lemma StampSplits(date: string, clock: string, millis: string)
    requires 'T' !in date && '.' !in clock
    ensures var s := Stamp(date, clock, millis);
            var body := s[..|s| - 1];
            && s[|s| - 1] == 'Z' && IndexOf(body, 'T') == |date| < |body|
            && body[..|date|] == date && Split(body[|date| + 1..], '.')[0] == clock
  {
    var s := Stamp(date, clock, millis);
    var body := s[..|s| - 1];
    assert body == date + ['T'] + (clock + ['.'] + millis);
    IndexOfAfter(date, 'T', clock + ['.'] + millis);
    assert body[|date| + 1..] == clock + ['.'] + millis;
    SplitAfter(clock, '.', millis);
  }

  lemma TripleLacks(a: nat, b: nat, c: nat, w: nat, sep: char, other: char)
    requires sep != other && !IsDigit(other)
    ensures other !in Triple(a, b, c, w, sep)
  {
    DigitsLack(Pad(a, w), other);
    DigitsLack(Pad(b, 2), other);
    DigitsLack(Pad(c, 2), other);
  }

  lemma PartParses(parts: seq<string>, k: nat, n: nat, w: nat, low: int, high: int)
    requires k < |parts| && parts[k] == Pad(n, w) && w > 0 && low <= n < high
    ensures PartAs(parts, k, low, high) == Some(n)
  {
    ParsePad(n, w, low, high);
  }

  lemma ReadParts(ps: seq<string>, ts: seq<string>, f: Fields)
    requires PartAs(ps, 0, -I64, I64) == Some(f.date.year) && PartAs(ps, 1, 0, U32) == Some(f.date.month)
    requires PartAs(ps, 2, 0, U32) == Some(f.date.day) && PartAs(ts, 0, 0, U64) == Some(f.hour)
    requires PartAs(ts, 1, 0, U64) == Some(f.minute) && PartAs(ts, 2, 0, U64) == Some(f.second)
    ensures ReadFields(ps, ts) == Some(f)
  {
  }

  lemma ReadPrinted(ps: seq<string>, ts: seq<string>, c: Date, h: nat, m: nat, s: nat)
    requires 0 <= c.year < I64 && 0 <= c.month < U32 && 0 <= c.day < U32
    requires h < U64 && m < U64 && s < U64
    requires ps == [Pad(c.year, 4), Pad(c.month, 2), Pad(c.day, 2)]
    requires ts == [Pad(h, 2), Pad(m, 2), Pad(s, 2)]
    ensures ReadFields(ps, ts) == Some(Fields(c, h, m, s))
  {
    PartParses(ps, 0, c.year, 4, -I64, I64);
    PartParses(ps, 1, c.month, 2, 0, U32);
    PartParses(ps, 2, c.day, 2, 0, U32);
    PartParses(ts, 0, h, 2, 0, U64);
    PartParses(ts, 1, m, 2, 0, U64);
    PartParses(ts, 2, s, 2, 0, U64);
    ReadParts(ps, ts, Fields(c, h, m, s));
  }

  lemma SplitPrinted(c: Date, h: nat, m: nat, s: nat, millis: string)
    requires 0 <= c.year < I64 && 0 <= c.month < U32 && 0 <= c.day < U32
    requires h < U64 && m < U64 && s < U64
    ensures SplitFields(Stamp(Triple(c.year, c.month, c.day, 4, '-'), Triple(h, m, s, 2, ':'), millis))
         == Some(Fields(c, h, m, s))
  {
    var date, clock := Triple(c.year, c.month, c.day, 4, '-'), Triple(h, m, s, 2, ':');
    TripleLacks(c.year, c.month, c.day, 4, '-', 'T');
    TripleLacks(h, m, s, 2, ':', '.');
    StampSplits(date, clock, millis);
    ParseTriple(c.year, c.month, c.day, 4, '-');
    ParseTriple(h, m, s, 2, ':');
    ReadPrinted([Pad(c.year, 4), Pad(c.month, 2), Pad(c.day, 2)], [Pad(h, 2), Pad(m, 2), Pad(s, 2)], c, h, m, s);
  }

  lemma SplitFormatted(days: nat, h: nat, m: nat, s: nat, millis: string)
    requires days < U64 && h < U64 && m < U64 && s < U64
    ensures SplitFields(Stamp(DateText(days), Triple(h, m, s, 2, ':'), millis))
              == Some(Fields(CivilFromDays(days), h, m, s))
  {
    var c := CivilFromDays(days);
    CivilSinceEpoch(days);
    YearFits(days);
    assert c.month < U32 && c.day < U32;
    SplitPrinted(c, h, m, s, millis);
  }

  lemma PrintedSeconds(days: nat, secs: nat)
    requires days == secs / DAY_SECONDS
    ensures FieldSeconds(Fields(CivilFromDays(days), (secs / 3600) % 24, (secs / 60) % 60, secs % 60)) == secs
  {
    DaysInvertCivil(days);
    ClockSplits(secs);
  }

  lemma FormatFields(t: int) returns (f: Fields)
    requires 0 <= t && t / NANOS < U64
    ensures SplitFields(FormatRfc3339(t)) == Some(f)
    ensures FieldSeconds(f) == t / NANOS
  {
    var secs := t / NANOS;
    var days := secs / DAY_SECONDS;
    var h, m, s := (secs / 3600) % 24, (secs / 60) % 60, secs % 60;
    SplitFormatted(days, h, m, s, Pad((t % NANOS) / 1_000_000, 3));
    PrintedSeconds(days, secs);
    f := Fields(CivilFromDays(days), h, m, s);
  }

  lemma NoWrap(n: nat)
    requires n < U64
    ensures n % U64 == n
  {
  }

  lemma ParseBySplit(s: string, f: Fields, secs: nat)
    requires SplitFields(s) == Some(f) && FieldSeconds(f) == secs && secs < U64
    ensures ParseEpochSecs(s) == Some(secs)
  {
    NoWrap(secs);
  }

  /** Parsing what was printed gives back the whole seconds, for every instant a 64-bit clock can hold. */
  lemma ParseInvertsFormat(t: int)
    requires 0 <= t && t / NANOS < U64
    ensures ParseEpochSecs(FormatRfc3339(t)) == Some(t / NANOS)
  {
    var f := FormatFields(t);
    ParseBySplit(FormatRfc3339(t), f, t / NANOS);
  }

  lemma BodySplits(date: string, time: string)
    requires 'T' !in date
    ensures var body := date + ['T'] + time;
      IndexOf(body, 'T') == |date| < |body| && body[..|date|] == date && body[|date| + 1..] == time
  {
    IndexOfAfter(date, 'T', time);
  }

  lemma SplitWithout(s: string, c: char)
    requires c !in s
    ensures Split(s, c) == [s]
  {
  }

  /** Whatever follows the first point changes nothing: there may be any fraction, or none. */
  lemma FractionIsIgnored(date: string, clock: string, rest: string)
    requires 'T' !in date && '.' !in clock
    ensures ParseEpochSecs(Stamp(date, clock, rest)) == ParseEpochSecs(date + ['T'] + clock + ['Z'])
  {
    var s, t := Stamp(date, clock, rest), date + ['T'] + clock + ['Z'];
    assert s[..|s| - 1] == date + ['T'] + (clock + ['.'] + rest);
    assert t[..|t| - 1] == date + ['T'] + clock;
    BodySplits(date, clock + ['.'] + rest);
    BodySplits(date, clock);
    SplitAfter(clock, '.', rest);
    SplitWithout(clock, '.');
  }

  /**
   * The parser does not insist on the printed shape: whatever follows the first dot is ignored, so
   * the text after the seconds may be anything.
   */
  lemma FieldsAreUnchecked(c: Date, h: nat, m: nat, s: nat, rest: string)
    requires 0 <= c.year < I64 && 0 <= c.month < U32 && 0 <= c.day < U32
    requires h < U64 && m < U64 && s < U64
    ensures ParseEpochSecs(Stamp(Triple(c.year, c.month, c.day, 4, '-'), Triple(h, m, s, 2, ':'), rest))
         == Some(FieldSeconds(Fields(c, h, m, s)) % U64)
  {
    SplitPrinted(c, h, m, s, rest);
  }

  lemma TicksPrint(ticks: nat, nanos: nat)
    requires UnixNanos(ticks) == Some(nanos)
    ensures FiletimeToRfc3339(ticks) == Some(FormatRfc3339(nanos))
    ensures ParseEpochSecs(FormatRfc3339(nanos)) == Some(nanos / NANOS)
  {
    ParseInvertsFormat(nanos);
  }

  lemma TicksSeconds(ticks: nat)
    requires WINDOWS_TO_UNIX_100NS <= ticks
    ensures ((ticks - WINDOWS_TO_UNIX_100NS) * 100) % U64 / NANOS == ticks / 10_000_000 - 11_644_473_600
            <==> ticks - WINDOWS_TO_UNIX_100NS <= (U64 - 1) / 100
  {
    var exact := (ticks - WINDOWS_TO_UNIX_100NS) * 100;
    assert exact / NANOS == ticks / 10_000_000 - 11_644_473_600;
    if exact >= U64 {
      assert exact % U64 <= exact - U64;
    }
  }

  /**
   * A Windows file time keeps its whole seconds through printing and parsing exactly when the tick
   * difference times 100 fits a 64-bit word; beyond that the product wraps and the date is wrong.
   * Ticks before the Unix epoch, zero among them, print nothing.
   */
  lemma FiletimeRoundTrip(ticks: nat) returns (text: Option<string>, secs: nat)
    ensures text == FiletimeToRfc3339(ticks)
    ensures text.None? <==> ticks < WINDOWS_TO_UNIX_100NS
    ensures text.Some? ==> ParseEpochSecs(text.value) == Some(secs)
    ensures text.Some? ==> (secs == ticks / 10_000_000 - 11_644_473_600
                            <==> ticks - WINDOWS_TO_UNIX_100NS <= (U64 - 1) / 100)
  {
    text, secs := FiletimeToRfc3339(ticks), 0;
    if ticks >= WINDOWS_TO_UNIX_100NS {
      var nanos := ((ticks - WINDOWS_TO_UNIX_100NS) * 100) % U64;
      secs := nanos / NANOS;
      TicksPrint(ticks, nanos);
      TicksSeconds(ticks);
    }
  }

  // ---------------------------------------------------------------------------------------------
  // String order is time order.

  lemma TripleOrder(a: nat, b: nat, c: nat, a': nat, b': nat, c': nat, w: nat, sep: char)
    requires a < Pow10(w) && a' < Pow10(w) && b < 100 && b' < 100 && c < 100 && c' < 100
    ensures var s, s' := Triple(a, b, c, w, sep), Triple(a', b', c', w, sep);
            && |s| == |s'| == w + 6
            && (Less(s, s') <==> a < a' || (a == a' && (b < b' || (b == b' && c < c'))))
            && (s == s' <==> a == a' && b == b' && c == c')
  {
    assert Pow10(2) == 100;
    LessByValue(a, a', w);
    LessByValue(b, b', 2);
    LessByValue(c, c', 2);
    LessBySeparated(Pad(b, 2), Pad(c, 2), Pad(b', 2), Pad(c', 2), sep);
    LessBySeparated(Pad(a, w), Pad(b, 2) + [sep] + Pad(c, 2), Pad(a', w), Pad(b', 2) + [sep] + Pad(c', 2), sep);
  }

  lemma DateOrder(z: nat, z': nat)
    requires z < Y10K_DAY && z' < Y10K_DAY
    ensures |DateText(z)| == |DateText(z')|
    ensures Less(DateText(z), DateText(z')) <==> z < z'
    ensures DateText(z) == DateText(z') <==> z == z'
  {
    var c, c' := CivilFromDays(z), CivilFromDays(z');
    CivilSinceEpoch(z);
    CivilSinceEpoch(z');
    assert Pow10(4) == 10_000 by { assert Pow10(2) == 100; }
    TripleOrder(c.year, c.month, c.day, c'.year, c'.month, c'.day, 4, '-');
    DaysInvertCivil(z);
    DaysInvertCivil(z');
    DaysKeepOrder(c, c');
  }

  lemma ClockOrder(s: nat, s': nat)
    ensures |ClockText(s)| == |ClockText(s')|
    ensures Less(ClockText(s), ClockText(s')) <==> s % DAY_SECONDS < s' % DAY_SECONDS
    ensures ClockText(s) == ClockText(s') <==> s % DAY_SECONDS == s' % DAY_SECONDS
  {
    assert Pow10(2) == 100;
    TripleOrder((s / 3600) % 24, (s / 60) % 60, s % 60, (s' / 3600) % 24, (s' / 60) % 60, s' % 60, 2, ':');
    ClockSplits(s);
    ClockSplits(s');
  }

  lemma MillisSplit(t: int)
    ensures var secs := SinceEpoch(t) / NANOS;
            Millis(t) == 1000 * secs + (SinceEpoch(t) % NANOS) / 1_000_000
  {
  }

  lemma FieldsOrder(d: string, c: string, m: string, d': string, c': string, m': string)
    requires |d| == |d'| && |c| == |c'| && |m| == |m'|
    ensures Less(Stamp(d, c, m), Stamp(d', c', m'))
            <==> Less(d, d') || (d == d' && (Less(c, c') || (c == c' && Less(m, m'))))
    ensures Stamp(d, c, m) == Stamp(d', c', m') <==> d == d' && c == c' && m == m'
  {
    var t, t' := c + ['.'] + m, c' + ['.'] + m';
    LessBySeparated(c, m, c', m', '.');
    LessBySeparated(d, t, d', t', 'T');
    LessBySeparated(d + ['T'] + t, [], d' + ['T'] + t', [], 'Z');
    assert Stamp(d, c, m) == d + ['T'] + t + ['Z'] + [] && Stamp(d', c', m') == d' + ['T'] + t' + ['Z'] + [];
  }

  /** Up to the end of year 9999, the order of the printed strings is the order of the instants, to the millisecond. */
  lemma FormatKeepsOrder(t: int, t': int)
    requires Millis(t) < Y10K_MILLIS && Millis(t') < Y10K_MILLIS
    ensures Less(FormatRfc3339(t), FormatRfc3339(t')) <==> Millis(t) < Millis(t')
    ensures FormatRfc3339(t) == FormatRfc3339(t') <==> Millis(t) == Millis(t')
  {
    var s, s' := SinceEpoch(t) / NANOS, SinceEpoch(t') / NANOS;
    var m, m' := (SinceEpoch(t) % NANOS) / 1_000_000, (SinceEpoch(t') % NANOS) / 1_000_000;
    MillisSplit(t);
    MillisSplit(t');
    assert Pow10(3) == 1000 by { assert Pow10(2) == 100; }
    DateOrder(s / DAY_SECONDS, s' / DAY_SECONDS);
    ClockOrder(s, s');
    LessByValue(m, m', 3);
    FieldsOrder(DateText(s / DAY_SECONDS), ClockText(s), Pad(m, 3), DateText(s' / DAY_SECONDS), ClockText(s'),
      Pad(m', 3));
  }

  predicate OrderAgrees(t: int, t': int) {
    Less(FormatRfc3339(t), FormatRfc3339(t')) <==> Millis(t) < Millis(t')
  }

  lemma FormatPrefix(t: int, days: nat, p: string)
    requires days == SinceEpoch(t) / NANOS / DAY_SECONDS && p <= DateText(days)
    ensures p <= FormatRfc3339(t)
  {
  }

  lemma PadOf1970()
    ensures Pad(1970, 4) == "1970"
  {
    assert Pad(1, 1) == "1" by { assert Pad(0, 0) == ""; }
    assert Pad(19, 2) == "19";
    assert Pad(197, 3) == "197";
  }

  lemma DateOf1970()
    ensures "19" <= DateText(0)
  {
    EpochDate();
    PadOf1970();
  }

  lemma PadOf10000()
    ensures Pad(10_000, 4) == "10000"
  {
    assert Pad(1, 0) == "1" by { assert Pad(0, 0) == ""; }
    assert Pad(10, 1) == "10";
    assert Pad(100, 2) == "100";
    assert Pad(1000, 3) == "1000";
  }

  lemma DateOf10000()
    ensures "10" <= DateText(Y10K_DAY)
  {
    FirstOfYearTenThousand();
    PadOf10000();
  }

  lemma SecondCharDecides(a: string, b: string)
    requires "19" <= a && "10" <= b
    ensures !Less(a, b)
  {
    assert a[0] == b[0] == '1' && a[1..][0] == '9' && b[1..][0] == '0';
  }

  lemma YearTenThousandSortsFirst(t: int, t': int)
    requires t == 0 && t' == Y10K_MILLIS * 1_000_000
    ensures !Less(FormatRfc3339(t), FormatRfc3339(t')) && Millis(t) < Millis(t')
  {
    DateOf1970();
    DateOf10000();
    FormatPrefix(t, 0, "19");
    FormatPrefix(t', Y10K_DAY, "10");
    SecondCharDecides(FormatRfc3339(t), FormatRfc3339(t'));
  }

  /** Year 10000 is where it ends: a horizon is safe exactly when it does not pass it. */
  lemma OrderHorizon(horizon: nat)
    ensures (forall t, t' :: 0 <= t < horizon * 1_000_000 && 0 <= t' < horizon * 1_000_000 ==> OrderAgrees(t, t'))
            <==> horizon <= Y10K_MILLIS
  {
    if horizon <= Y10K_MILLIS {
      forall t, t' | 0 <= t < horizon * 1_000_000 && 0 <= t' < horizon * 1_000_000
        ensures OrderAgrees(t, t')
      {
        FormatKeepsOrder(t, t');
      }
    } else {
      var late := Y10K_MILLIS * 1_000_000;
      YearTenThousandSortsFirst(0, late);
      assert !OrderAgrees(0, late);
    }
  }
}
