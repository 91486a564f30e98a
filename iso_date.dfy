/** The date-order check of the resume form (client/src/pages/ResumeBuilder.jsx,
    line 251) compares `new Date(joining) > new Date(leaving)`. The date inputs
    produce ISO 8601 calendar dates `YYYY-MM-DD`; for those this module shows that
    comparing the strings character by character is comparing the dates by
    (year, month, day). A string of that shape whose month is not 01-12 or
    whose day is not 01-31 makes an invalid `Date`, as the date time string
    format of ECMA-262 requires. */
module IsoDate {
  import opened Common

  /** The shape `YYYY-MM-DD`. */
  predicate IsIsoShape(s: string) {
    && |s| == 10
    && AllDigits(s[..4]) && s[4] == '-' && AllDigits(s[5..7]) && s[7] == '-' && AllDigits(s[8..])
  }

  /** A date `new Date(...)` accepts: the shape, a month 01-12 and a day 01-31. */
  predicate IsIsoDate(s: string) {
    && IsIsoShape(s)
    && 1 <= IntValue(s[5..7]) <= 12
    && 1 <= IntValue(s[8..]) <= 31
  }

  function Year(s: string): nat requires IsIsoDate(s) { IntValue(s[..4]) }
  function Month(s: string): nat requires IsIsoDate(s) { IntValue(s[5..7]) }
  function Day(s: string): nat requires IsIsoDate(s) { IntValue(s[8..]) }

  /** Strict lexicographic order on strings, by character code. */
  predicate LexLess(a: string, b: string)
    decreases |a|
  {
    if a == [] then b != []
    else if b == [] then false
    else a[0] < b[0] || (a[0] == b[0] && LexLess(a[1..], b[1..]))
  }

  /** The date `a` is strictly later than `b`, for dates in ISO form by the
      string order; a value that is not an ISO date, such as "2020-13-01",
      never compares as later (as an invalid `Date` compares false with
      everything). */
  predicate After(a: string, b: string) {
    IsIsoDate(a) && IsIsoDate(b) && LexLess(b, a)
  }

  /** Chronological order: by year, then month, then day. */
  predicate ChronologicallyBefore(b: string, a: string)
    requires IsIsoDate(a) && IsIsoDate(b)
  {
    || Year(b) < Year(a)
    || (Year(b) == Year(a) && Month(b) < Month(a))
    || (Year(b) == Year(a) && Month(b) == Month(a) && Day(b) < Day(a))
  }

  /** The string order of ISO dates is the chronological order. */
  lemma AfterIsChronological(a: string, b: string)
    requires IsIsoDate(a) && IsIsoDate(b)
    ensures After(a, b) <==> ChronologicallyBefore(b, a)
  {
    assert a == a[..4] + ([a[4]] + (a[5..7] + ([a[7]] + a[8..])));
    assert b == b[..4] + ([b[4]] + (b[5..7] + ([b[7]] + b[8..])));
    DigitCompare(b[..4], a[..4]);
    DigitCompare(b[5..7], a[5..7]);
    DigitCompare(b[8..], a[8..]);
    LexLessConcat(b[..4], a[..4], [b[4]] + (b[5..7] + ([b[7]] + b[8..])), [a[4]] + (a[5..7] + ([a[7]] + a[8..])));
    LexLessConcat([b[4]], [a[4]], b[5..7] + ([b[7]] + b[8..]), a[5..7] + ([a[7]] + a[8..]));
    LexLessConcat(b[5..7], a[5..7], [b[7]] + b[8..], [a[7]] + a[8..]);
    LexLessConcat([b[7]], [a[7]], b[8..], a[8..]);
  }

  /** A month outside the calendar makes the comparison false. */
  lemma MonthOutOfCalendar()
    ensures !After("2020-13-01", "2020-12-01")
  {
    assert "2020-13-01"[5..7] == "13";
    assert IntValue("13") == 10 * IntValue("1") + 3;
  }

  /** So does a day outside the calendar, on either side. */
  lemma DayOutOfCalendar()
    ensures !After("2021-01-01", "2020-12-00")
    ensures !After("2020-05-32", "2020-05-01")
  {
    assert "2020-12-00"[8..] == "00";
    assert IntValue("00") == 10 * IntValue("0");
    assert "2020-05-32"[8..] == "32";
    assert IntValue("32") == 10 * IntValue("3") + 2;
  }

  /** Comparing two equally long strings splits at the first differing prefix. */
  lemma {:induction false} LexLessConcat(x: string, y: string, u: string, v: string)
    requires |x| == |y|
    ensures LexLess(x + u, y + v) <==> LexLess(x, y) || (x == y && LexLess(u, v))
    decreases |x|
  {
    if x != [] {
      assert (x + u)[0] == x[0] && (y + v)[0] == y[0];
      assert (x + u)[1..] == x[1..] + u;
      assert (y + v)[1..] == y[1..] + v;
      LexLessConcat(x[1..], y[1..], u, v);
      assert x == y <==> x[0] == y[0] && x[1..] == y[1..] by {
        if x[0] == y[0] && x[1..] == y[1..] {
          assert x == [x[0]] + x[1..] && y == [y[0]] + y[1..];
        }
      }
    } else {
      assert x + u == u && y + v == v;
    }
  }

  function Pow10(n: nat): (p: nat)
    ensures p >= 1
  {
    if n == 0 then 1 else 10 * Pow10(n - 1)
  }

  lemma {:induction false} IntValueBound(s: string)
    requires AllDigits(s)
    ensures IntValue(s) < Pow10(|s|)
    decreases |s|
  {
    if s != [] {
      IntValueBound(s[..|s| - 1]);
    }
  }

  lemma AllDigitsConcat(x: string, y: string)
    requires AllDigits(x) && AllDigits(y)
    ensures AllDigits(x + y)
  {
    forall k | 0 <= k < |x + y| ensures IsDigit((x + y)[k]) {
      if k < |x| { assert (x + y)[k] == x[k]; } else { assert (x + y)[k] == y[k - |x|]; }
    }
  }

  lemma Distribute(x: int, p: int, y: int, d: int)
    ensures 10 * (x * p + y) + d == x * (10 * p) + (10 * y + d)
  {
  }

  lemma {:induction false} IntValueConcat(x: string, y: string)
    requires AllDigits(x) && AllDigits(y)
    ensures AllDigits(x + y)
    ensures IntValue(x + y) == IntValue(x) * Pow10(|y|) + IntValue(y)
    decreases |y|
  {
    AllDigitsConcat(x, y);
    if y == [] {
      assert x + y == x;
    } else {
      var y' := y[..|y| - 1];
      var d := DigitValue(y[|y| - 1]);
      assert (x + y)[..|x + y| - 1] == x + y';
      assert (x + y)[|x + y| - 1] == y[|y| - 1];
      IntValueConcat(x, y');
      assert IntValue(x + y) == 10 * IntValue(x + y') + d;
      assert IntValue(y) == 10 * IntValue(y') + d;
      assert Pow10(|y|) == 10 * Pow10(|y'|);
      Distribute(IntValue(x), Pow10(|y'|), IntValue(y'), d);
    }
  }

  /** For digit strings of equal length the string order is the numeric order. */
  lemma {:induction false} DigitCompare(a: string, b: string)
    requires |a| == |b| && AllDigits(a) && AllDigits(b)
    ensures LexLess(a, b) <==> IntValue(a) < IntValue(b)
    ensures a == b <==> IntValue(a) == IntValue(b)
    decreases |a|
  {
    if a != [] {
      var ta, tb := a[1..], b[1..];
      assert a == [a[0]] + ta && b == [b[0]] + tb;
      IntValueConcat([a[0]], ta);
      IntValueConcat([b[0]], tb);
      assert IntValue([a[0]]) == DigitValue(a[0]) && IntValue([b[0]]) == DigitValue(b[0]);
      IntValueBound(ta);
      IntValueBound(tb);
      DigitCompare(ta, tb);
      PlaceValueCompare(DigitValue(a[0]), DigitValue(b[0]), IntValue(ta), IntValue(tb), Pow10(|a| - 1));
      assert a == b <==> a[0] == b[0] && ta == tb;
    }
  }

  /** Numbers written with the same place value compare by their leading digit first. */
  lemma PlaceValueCompare(da: nat, db: nat, ra: nat, rb: nat, p: nat)
    requires ra < p && rb < p
    ensures da * p + ra < db * p + rb <==> da < db || (da == db && ra < rb)
    ensures da * p + ra == db * p + rb <==> da == db && ra == rb
  {
    if da < db {
      assert (da + 1) * p <= db * p;
    } else if db < da {
      assert (db + 1) * p <= da * p;
    }
  }
}
