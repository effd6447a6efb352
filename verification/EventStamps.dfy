/** Timestamps as the Windows event log writes them: RFC 3339 with any number of fraction digits. */
module EventStamps {
  import opened Text
  import opened Timestamps

  /** A whole second since the epoch and the digits after the point. */
  datatype Instant = Instant(secs: nat, fraction: string)

  /** Before year 10000, with a fraction of digits. */
  predicate IsStamp(t: Instant) { t.secs < Y10K_DAY * DAY_SECONDS && AllDigits(t.fraction) }

  function Tail(fraction: string): string { if fraction == "" then "Z" else "." + fraction + "Z" }

  function StampText(t: Instant): string {
    DateText(t.secs / DAY_SECONDS) + ['T'] + (ClockText(t.secs) + Tail(t.fraction))
  }

  /** 0.a is less than 0.b, as rational numbers. */
  predicate SmallerFraction(a: string, b: string)
    requires AllDigits(a) && AllDigits(b)
  {
    DigitsValue(a) * Pow10(|b|) < DigitsValue(b) * Pow10(|a|)
  }

  predicate Precedes(a: Instant, b: Instant)
    requires IsStamp(a) && IsStamp(b)
  {
    a.secs < b.secs || (a.secs == b.secs && SmallerFraction(a.fraction, b.fraction))
  }

  /** One fraction is the beginning of the other, longer one. */
  predicate Continues(a: string, b: string) { |a| != |b| && (a <= b || b <= a) }

  /** Two stamps of the same second, of which one has further digits. */
  predicate Clash(a: Instant, b: Instant) { a.secs == b.secs && Continues(a.fraction, b.fraction) }

  predicate TextAgrees(a: Instant, b: Instant)
    requires IsStamp(a) && IsStamp(b)
  {
    && (Less(StampText(a), StampText(b)) <==> Precedes(a, b))
    && (Less(StampText(b), StampText(a)) <==> Precedes(b, a))
  }

  // ---------------------------------------------------------------------------------------------
  // Fractions.

  lemma Scale(x: nat, p: nat, v: nat)
    ensures 10 * (x * p + v) == x * (10 * p) + 10 * v
  {
  }

  lemma {:induction false} FrontDigit(d: char, s: string)
    requires IsDigit(d) && AllDigits(s)
    ensures AllDigits([d] + s) && DigitsValue([d] + s) == (d as int - '0' as int) * Pow10(|s|) + DigitsValue(s)
  {
    if s == "" {
      assert ([d] + s)[..0] == "";
    } else {
      var init := s[..|s| - 1];
      FrontDigit(d, init);
      assert ([d] + s)[..|s|] == [d] + init;
      Scale(d as int - '0' as int, Pow10(|init|), DigitsValue(init));
    }
  }

  lemma {:induction false} DigitsBound(s: string)
    requires AllDigits(s)
    ensures DigitsValue(s) < Pow10(|s|)
  {
    if s != "" {
      DigitsBound(s[..|s| - 1]);
      assert IsDigit(s[|s| - 1]);
    }
  }

  lemma Distribute(a: nat, b: nat, c: nat)
    ensures (a + b) * c == a * c + b * c
  {
  }

  lemma Regroup(a: nat, b: nat, c: nat)
    ensures a * b * c == a * (b * c)
  {
  }

  lemma Expand(x: nat, p: nat, v: nat, q: nat)
    ensures (x * p + v) * (10 * q) == 10 * (x * (p * q)) + 10 * (v * q)
  {
    Distribute(x * p, v, q);
    Regroup(x, p, q);
    var sum := x * p + v;
    assert sum * (10 * q) == 10 * (sum * q);
  }

  lemma ProductGrows(a: nat, b: nat, c: nat)
    requires a < b && c > 0
    ensures a * c < b * c
  {
  }

  lemma Gap(x: nat, y: nat, k: nat)
    requires x < y
    ensures x * k + k <= y * k
  {
    Distribute(x, y - x, k);
    Distribute(y - x - 1, 1, k);
  }

  lemma LeadingDecides(x: nat, y: nat, r: nat, s: nat, k: nat, xk: nat, yk: nat)
    requires r < k && s < k && xk == x * k && yk == y * k
    ensures 10 * xk + 10 * r < 10 * yk + 10 * s <==> x < y || (x == y && r < s)
  {
    if x < y {
      Gap(x, y, k);
    } else if y < x {
      Gap(y, x, k);
    }
  }

  /** Leading digits decide unless they are equal. */
  lemma FrontDecides(x: nat, y: nat, v: nat, w: nat, p: nat, q: nat)
    requires v < p && w < q
    ensures (x * p + v) * (10 * q) < (y * q + w) * (10 * p) <==> x < y || (x == y && v * q < w * p)
  {
    Expand(x, p, v, q);
    Expand(y, q, w, p);
    ProductGrows(v, p, q);
    ProductGrows(w, q, p);
    var k := p * q;
    assert q * p == k;
    LeadingDecides(x, y, v * q, w * p, k, x * k, y * k);
  }

  lemma FractionStep(a: string, b: string)
    requires AllDigits(a) && AllDigits(b) && a != "" && b != ""
    ensures AllDigits(a[1..]) && AllDigits(b[1..])
    ensures SmallerFraction(a, b) <==> a[0] < b[0] || (a[0] == b[0] && SmallerFraction(a[1..], b[1..]))
  {
    var s, t := a[1..], b[1..];
    assert a == [a[0]] + s && b == [b[0]] + t;
    assert IsDigit(a[0]) && IsDigit(b[0]);
    FrontDigit(a[0], s);
    FrontDigit(b[0], t);
    DigitsBound(s);
    DigitsBound(t);
    FrontDecides(a[0] as int - '0' as int, b[0] as int - '0' as int, DigitsValue(s), DigitsValue(t), Pow10(|s|),
      Pow10(|t|));
  }

  lemma OneIsEmpty(a: string, b: string)
    requires AllDigits(a) && AllDigits(b) && (a == "" || b == "")
    ensures (Less(a + "Z", b + "Z") <==> SmallerFraction(a, b)) && (Less(b + "Z", a + "Z") <==> SmallerFraction(b, a))
            <==> !Continues(a, b)
    ensures a < b ==> Less(b + "Z", a + "Z")
  {
    LessTotal("Z", "Z");
    if a != "" {
      assert IsDigit(a[0]) && (a + "Z")[0] == a[0];
      assert DigitsValue(a) >= 0;
    }
    if b != "" {
      assert IsDigit(b[0]) && (b + "Z")[0] == b[0];
    }
  }

  /**
   * With a letter after the digits, string order is the order of the fractions exactly when neither continues the
   * other.
   */
  lemma {:induction false} FractionOrder(a: string, b: string)
    requires AllDigits(a) && AllDigits(b)
    ensures (Less(a + "Z", b + "Z") <==> SmallerFraction(a, b)) && (Less(b + "Z", a + "Z") <==> SmallerFraction(b, a))
            <==> !Continues(a, b)
    ensures a < b ==> Less(b + "Z", a + "Z")
    decreases |a|
  {
    LessTotal("Z", "Z");
    if a == "" || b == "" {
      OneIsEmpty(a, b);
    } else {
      FractionStep(a, b);
      FractionStep(b, a);
      assert (a + "Z")[1..] == a[1..] + "Z" && (b + "Z")[1..] == b[1..] + "Z";
      FractionOrder(a[1..], b[1..]);
      assert a == [a[0]] + a[1..] && b == [b[0]] + b[1..];
      assert a <= b <==> a[0] == b[0] && a[1..] <= b[1..];
      assert b <= a <==> a[0] == b[0] && b[1..] <= a[1..];
    }
  }

  // ---------------------------------------------------------------------------------------------
  // Stamps.

  lemma TailOrder(a: string, b: string)
    requires AllDigits(a) && AllDigits(b)
    ensures Less(Tail(a), Tail(b)) <==> Less(a + "Z", b + "Z")
  {
    LessTotal("Z", "Z");
    if a != "" {
      assert IsDigit(a[0]) && (a + "Z")[0] == a[0];
      assert Tail(a)[0] == '.' && Tail(a)[1..] == a + "Z";
    }
    if b != "" {
      assert IsDigit(b[0]) && (b + "Z")[0] == b[0];
      assert Tail(b)[0] == '.' && Tail(b)[1..] == b + "Z";
    }
  }

  lemma StampOrder(a: Instant, b: Instant)
    requires IsStamp(a) && IsStamp(b)
    ensures Less(StampText(a), StampText(b)) <==>
              a.secs < b.secs || (a.secs == b.secs && Less(a.fraction + "Z", b.fraction + "Z"))
  {
    var z, z' := a.secs / DAY_SECONDS, b.secs / DAY_SECONDS;
    DateOrder(z, z');
    ClockOrder(a.secs, b.secs);
    TailOrder(a.fraction, b.fraction);
    LessByFields(ClockText(a.secs), Tail(a.fraction), ClockText(b.secs), Tail(b.fraction));
    LessBySeparated(DateText(z), ClockText(a.secs) + Tail(a.fraction), DateText(z'),
      ClockText(b.secs) + Tail(b.fraction), 'T');
  }

  /** Text order is time order for two stamps if and only if they do not clash. */
  lemma TextAgreesUnlessClash(a: Instant, b: Instant)
    requires IsStamp(a) && IsStamp(b)
    ensures TextAgrees(a, b) <==> !Clash(a, b)
  {
    StampOrder(a, b);
    StampOrder(b, a);
    FractionOrder(a.fraction, b.fraction);
  }

  /** With one common number of digits, whatever it is, no two stamps clash. */
  lemma CommonWidth(a: Instant, b: Instant)
    requires IsStamp(a) && IsStamp(b) && |a.fraction| == |b.fraction|
    ensures TextAgrees(a, b)
  {
    TextAgreesUnlessClash(a, b);
  }

  lemma {:induction false} NeverSmaller(a: string, b: string)
    requires AllDigits(a) && AllDigits(b) && a <= b
    ensures !SmallerFraction(b, a)
    decreases |a|
  {
    if a != "" {
      FractionStep(b, a);
      NeverSmaller(a[1..], b[1..]);
    }
  }

  /** Of two clashing stamps the one with more digits sorts first, though it is never earlier. */
  lemma LongerSortsFirst(a: Instant, b: Instant)
    requires IsStamp(a) && IsStamp(b) && a.secs == b.secs && a.fraction < b.fraction
    ensures Less(StampText(b), StampText(a)) && !Precedes(b, a)
  {
    StampOrder(b, a);
    FractionOrder(a.fraction, b.fraction);
    NeverSmaller(a.fraction, b.fraction);
  }

  /** The instant that the program's own timestamp of t shows: whole milliseconds, in three digits. */
  function Printed(t: int): Instant {
    Instant(SinceEpoch(t) / NANOS, Pad((SinceEpoch(t) % NANOS) / 1_000_000, 3))
  }

  /** The program's own timestamps are stamps of three digits. */
  lemma FormatIsStamp(t: int)
    ensures FormatRfc3339(t) == StampText(Printed(t))
    ensures Millis(t) < Y10K_MILLIS ==> IsStamp(Printed(t)) && |Printed(t).fraction| == 3
  {
    var secs, m := SinceEpoch(t) / NANOS, Pad((SinceEpoch(t) % NANOS) / 1_000_000, 3);
    var d, c := DateText(secs / DAY_SECONDS), ClockText(secs);
    assert d + ['T'] + (c + ['.'] + m) + ['Z'] == d + ['T'] + (c + ("." + m + "Z"));
    PadWidth((SinceEpoch(t) % NANOS) / 1_000_000, 3);
  }
}
