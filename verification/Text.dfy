/** Strings: splitting, decimal numerals, and the byte order that Rust's `String` comparison uses. */
module Text {
  import opened Wrappers

  // ---------------------------------------------------------------------------------------------
  // Searching and splitting.

  /** Index of the first c in s, or |s|. */
  function IndexOf(s: string, c: char): (i: nat)
    ensures i <= |s| && (i < |s| <==> c in s)
    ensures i < |s| ==> s[i] == c
    ensures c !in s[..i]
  {
    if s == [] || s[0] == c then 0 else
      var i := 1 + IndexOf(s[1..], c);
      assert s[..i] == [s[0]] + s[1..][..i - 1];
      i
  }

  /** `str::split`: the pieces between separators, at least one. */
  function Split(s: string, c: char): (parts: seq<string>)
    ensures |parts| >= 1
  {
    var i := IndexOf(s, c);
    if i < |s| then [s[..i]] + Split(s[i + 1..], c) else [s]
  }

  lemma IndexOfAfter(a: string, c: char, b: string)
    requires c !in a
    ensures IndexOf(a + [c] + b, c) == |a|
  {
    assert (a + [c] + b)[|a|] == c;
  }

  lemma SplitAfter(a: string, c: char, b: string)
    requires c !in a
    ensures Split(a + [c] + b, c) == [a] + Split(b, c)
  {
    IndexOfAfter(a, c, b);
    var s := a + [c] + b;
    assert s[..|a|] == a && s[|a| + 1..] == b;
  }

  // ---------------------------------------------------------------------------------------------
  // Decimal numerals.

  predicate IsDigit(c: char) { '0' <= c <= '9' }

  predicate AllDigits(s: string) { forall i :: 0 <= i < |s| ==> IsDigit(s[i]) }

  function DigitChar(d: nat): (c: char)
    requires d < 10
  {
    ('0' as int + d) as char
  }

  /** `{n:0w}` for w > 0: decimal digits of n, zero-padded on the left to width w. */
  function Pad(n: nat, w: nat): (s: string)
    ensures AllDigits(s) && |s| >= w
    decreases n, w
  {
    if n == 0 && w == 0 then "" else Pad(n / 10, if w == 0 then 0 else w - 1) + [DigitChar(n % 10)]
  }

  /** The plain decimal form of n. */
  function Decimal(n: nat): (s: string)
    ensures AllDigits(s) && |s| >= 1
  {
    Pad(n, 1)
  }

  function DigitsValue(s: string): (n: nat)
    requires AllDigits(s)
  {
    if s == "" then 0 else 10 * DigitsValue(s[..|s| - 1]) + (s[|s| - 1] as int - '0' as int)
  }

  /** Rust's integer `parse`: an optional sign (`-` only when the type is signed), then digits, within range. */
  function ParseInt(s: string, low: int, high: int): (r: Option<int>)
    ensures r.Some? ==> low <= r.value < high
  {
    var negative := low < 0 && |s| > 0 && s[0] == '-';
    var digits := if negative || (|s| > 0 && s[0] == '+') then s[1..] else s;
    if digits == "" || !AllDigits(digits) then None else
      var v: int := DigitsValue(digits);
      var n := if negative then -v else v;
      if low <= n < high then Some(n) else None
  }

  lemma {:induction false} PadValue(n: nat, w: nat)
    ensures DigitsValue(Pad(n, w)) == n
    decreases n, w
  {
    if n != 0 || w != 0 {
      var s := Pad(n / 10, if w == 0 then 0 else w - 1);
      PadValue(n / 10, if w == 0 then 0 else w - 1);
      assert (s + [DigitChar(n % 10)])[..|s|] == s;
    }
  }

  /** Printing and parsing a number is the identity, whatever the padding. */
  lemma ParsePad(n: nat, w: nat, low: int, high: int)
    requires w > 0 && low <= n < high
    ensures ParseInt(Pad(n, w), low, high) == Some(n)
  {
    PadValue(n, w);
    assert IsDigit(Pad(n, w)[0]);
  }

  function Pow10(w: nat): (p: nat)
    ensures p > 0
  {
    if w == 0 then 1 else 10 * Pow10(w - 1)
  }

  lemma {:induction false} PadWidth(n: nat, w: nat)
    ensures n < Pow10(w) ==> |Pad(n, w)| == w
    ensures n >= Pow10(w) ==> |Pad(n, w)| > w
    decreases n, w
  {
    if w > 0 {
      PadWidth(n / 10, w - 1);
    } else if n > 0 {
      assert |Pad(n / 10, 0)| >= 0;
    }
  }

  // ---------------------------------------------------------------------------------------------
  // Lexicographic order.

  predicate Less(a: string, b: string) {
    b != "" && (a == "" || a[0] < b[0] || (a[0] == b[0] && Less(a[1..], b[1..])))
  }

  lemma {:induction false} LessTotal(a: string, b: string)
    ensures Less(a, b) || a == b || Less(b, a)
    ensures !(Less(a, b) && Less(b, a)) && !Less(a, a)
  {
    if a != "" && b != "" {
      LessTotal(a[1..], b[1..]);
      LessTotal(a[1..], a[1..]);
      assert a == [a[0]] + a[1..] && b == [b[0]] + b[1..];
    } else if a != "" {
      LessTotal(a[1..], a[1..]);
    }
  }

  lemma {:induction false} LessTransitive(a: string, b: string, c: string)
    requires Less(a, b) && Less(b, c)
    ensures Less(a, c)
  {
    if a != "" && a[0] == b[0] && b[0] == c[0] {
      LessTransitive(a[1..], b[1..], c[1..]);
    }
  }

  /** Fields of equal width compare one after the other. */
  lemma {:induction false} LessByFields(a: string, b: string, a': string, b': string)
    requires |a| == |a'|
    ensures Less(a + b, a' + b') <==> Less(a, a') || (a == a' && Less(b, b'))
  {
    if a == "" {
      assert a + b == b && a' + b' == b';
    } else {
      assert (a + b)[1..] == a[1..] + b && (a' + b')[1..] == a'[1..] + b';
      assert a == a' <==> a[0] == a'[0] && a[1..] == a'[1..];
      LessByFields(a[1..], b, a'[1..], b');
    }
  }

  lemma EqualByFields(a: string, b: string, a': string, b': string)
    requires |a| == |a'|
    ensures a + b == a' + b' <==> a == a' && b == b'
  {
    if a + b == a' + b' {
      assert a == (a + b)[..|a|] && a' == (a' + b')[..|a|];
      assert b == (a + b)[|a|..] && b' == (a' + b')[|a|..];
    }
  }

  /** The same for fields with a separator between them. */
  lemma LessBySeparated(a: string, b: string, a': string, b': string, sep: char)
    requires |a| == |a'|
    ensures Less(a + [sep] + b, a' + [sep] + b') <==> Less(a, a') || (a == a' && Less(b, b'))
    ensures a + [sep] + b == a' + [sep] + b' <==> a == a' && b == b'
  {
    LessTotal([sep], [sep]);
    LessByFields(a, [sep], a', [sep]);
    LessByFields(a + [sep], b, a' + [sep], b');
    EqualByFields(a + [sep], b, a' + [sep], b');
    EqualByFields(a, [sep], a', [sep]);
  }

  /** Zero-padded numerals of one width compare as numbers. */
  lemma {:induction false} LessByValue(n: nat, n': nat, w: nat)
    requires n < Pow10(w) && n' < Pow10(w)
    ensures |Pad(n, w)| == |Pad(n', w)| == w
    ensures Less(Pad(n, w), Pad(n', w)) <==> n < n'
    ensures Pad(n, w) == Pad(n', w) <==> n == n'
  {
    PadWidth(n, w);
    PadWidth(n', w);
    PadValue(n, w);
    PadValue(n', w);
    if w > 0 {
      LessByValue(n / 10, n' / 10, w - 1);
      LessByFields(Pad(n / 10, w - 1), [DigitChar(n % 10)], Pad(n' / 10, w - 1), [DigitChar(n' % 10)]);
    }
  }
}
