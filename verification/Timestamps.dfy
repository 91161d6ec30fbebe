/**
 * ISO timestamps as the candidate store renders and compares them.
 *
 * `datetime.isoformat` omits the fraction when the microsecond is zero and writes six digits otherwise,
 * so rendered instants have two widths; the store still compares them as strings.
 */
module Timestamps {
  import opened Text

  /** Broken-down wall-clock time. */
  datatype Instant = Instant(year: nat, month: nat, day: nat, hour: nat, minute: nat, second: nat, micro: nat)

  predicate IsLeap(y: nat) {
    y % 4 == 0 && (y % 100 != 0 || y % 400 == 0)
  }

  function DaysInMonth(y: nat, m: nat): nat {
    if m == 2 then (if IsLeap(y) then 29 else 28)
    else if m == 4 || m == 6 || m == 9 || m == 11 then 30
    else 31
  }

  predicate Valid(i: Instant) {
    && 1 <= i.year <= 9999 && 1 <= i.month <= 12 && 1 <= i.day <= DaysInMonth(i.year, i.month)
    && i.hour < 24 && i.minute < 60 && i.second < 60 && i.micro < 1000000
  }

  type ValidInstant = i: Instant | Valid(i) witness Instant(1, 1, 1, 0, 0, 0, 0)

  // ---- rendering ----

  function Pow10(w: nat): nat {
    if w == 0 then 1 else 10 * Pow10(w - 1)
  }

  function Digits(w: nat, n: nat): (s: string)
    ensures |s| == w
  {
    if w == 0 then "" else Digits(w - 1, n / 10) + ['0' + (n % 10) as char]
  }

  function Fraction(micro: nat): string {
    if micro == 0 then "" else "." + Digits(6, micro)
  }

  function RenderAt(i: Instant, offset: string): string {
    Digits(4, i.year) + ("-" + (Digits(2, i.month) + ("-" + (Digits(2, i.day) + ("T" + (Digits(2, i.hour)
    + (":" + (Digits(2, i.minute) + (":" + (Digits(2, i.second) + (Fraction(i.micro) + offset)))))))))))
  }

  /** What `_timestamp` returns: the instant in UTC. */
  function Render(i: Instant): string {
    RenderAt(i, "+00:00")
  }

  // ---- chronology ----

  function DaysBeforeYear(y: nat): int
    requires y >= 1
  {
    (y - 1) * 365 + (y - 1) / 4 - (y - 1) / 100 + (y - 1) / 400
  }

  function DaysBeforeMonth(y: nat, m: nat): nat
    requires m >= 1
  {
    if m == 1 then 0 else DaysBeforeMonth(y, m - 1) + DaysInMonth(y, m - 1)
  }

  /** Days since the calendar's origin, in the proleptic Gregorian calendar. */
  function Ordinal(i: Instant): int
    requires i.year >= 1 && i.month >= 1
  {
    DaysBeforeYear(i.year) + DaysBeforeMonth(i.year, i.month) + i.day
  }

  function Micros(i: Instant): int
    requires i.year >= 1 && i.month >= 1
  {
    (((Ordinal(i) * 24 + i.hour) * 60 + i.minute) * 60 + i.second) * 1000000 + i.micro
  }

  // ---- the calendar is monotone ----

  lemma {:induction false} YearsGrow(y: nat, y': nat)
    requires 1 <= y <= y'
    ensures DaysBeforeYear(y) + (y' - y) * 365 <= DaysBeforeYear(y')
    ensures y < y' ==> DaysBeforeYear(y) + 365 + (if IsLeap(y) then 1 else 0) <= DaysBeforeYear(y')
    decreases y' - y
  {
    if y < y' {
      YearStep(y);
      YearsGrow(y + 1, y');
    }
  }

  function Divides(k: nat, y: nat): int
    requires k > 0
  {
    if y % k == 0 then 1 else 0
  }

  lemma {:induction false} QuotientStep(y: nat, q: nat, r: nat, k: nat)
    requires y >= 1 && k > 1 && r < k && y == k * q + r
    ensures y / k == (y - 1) / k + Divides(k, y)
  {
    QuotientIs(y, k, q, r);
    if r == 0 {
      assert k * q == k * (q - 1) + k;
      QuotientIs(y - 1, k, q - 1, k - 1);
    } else {
      QuotientIs(y - 1, k, q, r - 1);
    }
  }

  lemma {:induction false} QuotientIs(y: nat, k: nat, q: int, r: nat)
    requires k > 0 && r < k && y == k * q + r
    ensures y / k == q && y % k == r
  {
    var d := y / k - q;
    assert y == k * (y / k) + y % k;
    assert k * d == r - y % k by {
      assert k * d == k * (y / k) - k * q;
    }
  }

  lemma {:induction false} YearStep(y: nat)
    requires y >= 1
    ensures DaysBeforeYear(y + 1) == DaysBeforeYear(y) + 365 + (if IsLeap(y) then 1 else 0)
  {
    QuotientStep(y, y / 4, y % 4, 4);
    QuotientStep(y, y / 100, y % 100, 100);
    QuotientStep(y, y / 400, y % 400, 400);
    LeapDays(y);
  }

  lemma {:induction false} LeapDays(y: nat)
    ensures Divides(4, y) - Divides(100, y) + Divides(400, y) == if IsLeap(y) then 1 else 0
  {
    if y % 400 == 0 {
      QuotientIs(y, 100, 4 * (y / 400), 0);
    }
    if y % 100 == 0 {
      QuotientIs(y, 4, 25 * (y / 100), 0);
    }
  }

  lemma {:induction false} MonthsGrow(y: nat, m: nat, m': nat)
    requires 1 <= m < m'
    ensures DaysBeforeMonth(y, m) + DaysInMonth(y, m) <= DaysBeforeMonth(y, m')
  {
    if m + 1 < m' {
      MonthsGrow(y, m, m' - 1);
    }
  }

  lemma {:induction false} YearHoldsMonths(y: nat)
    ensures DaysBeforeMonth(y, 13) == 365 + (if IsLeap(y) then 1 else 0)
  {
    assert DaysBeforeMonth(y, 2) == DaysBeforeMonth(y, 1) + DaysInMonth(y, 1);
    assert DaysBeforeMonth(y, 3) == DaysBeforeMonth(y, 2) + DaysInMonth(y, 2);
    assert DaysBeforeMonth(y, 4) == DaysBeforeMonth(y, 3) + DaysInMonth(y, 3);
    assert DaysBeforeMonth(y, 5) == DaysBeforeMonth(y, 4) + DaysInMonth(y, 4);
    assert DaysBeforeMonth(y, 6) == DaysBeforeMonth(y, 5) + DaysInMonth(y, 5);
    assert DaysBeforeMonth(y, 7) == DaysBeforeMonth(y, 6) + DaysInMonth(y, 6);
    assert DaysBeforeMonth(y, 8) == DaysBeforeMonth(y, 7) + DaysInMonth(y, 7);
    assert DaysBeforeMonth(y, 9) == DaysBeforeMonth(y, 8) + DaysInMonth(y, 8);
    assert DaysBeforeMonth(y, 10) == DaysBeforeMonth(y, 9) + DaysInMonth(y, 9);
    assert DaysBeforeMonth(y, 11) == DaysBeforeMonth(y, 10) + DaysInMonth(y, 10);
    assert DaysBeforeMonth(y, 12) == DaysBeforeMonth(y, 11) + DaysInMonth(y, 11);
    assert DaysBeforeMonth(y, 13) == DaysBeforeMonth(y, 12) + DaysInMonth(y, 12);
  }

  lemma {:induction false} DatesGrow(a: ValidInstant, b: ValidInstant)
    requires a.year < b.year || (a.year == b.year && (a.month < b.month || (a.month == b.month && a.day < b.day)))
    ensures Ordinal(a) < Ordinal(b)
  {
    if a.year < b.year {
      MonthsGrow(a.year, a.month, 13);
      YearHoldsMonths(a.year);
      YearsGrow(a.year, b.year);
    } else if a.month < b.month {
      MonthsGrow(a.year, a.month, b.month);
    }
  }

  // ---- comparing rendered text ----

  lemma {:induction false} DigitsCompare(w: nat, n: nat, m: nat)
    requires n < Pow10(w) && m < Pow10(w)
    ensures Compare(Digits(w, n), Digits(w, m)) == Sign(n - m)
  {
    if w > 0 {
      DigitsCompare(w - 1, n / 10, m / 10);
      CompareAppend(Digits(w - 1, n / 10), Digits(w - 1, m / 10), ['0' + (n % 10) as char], ['0' + (m % 10) as char]);
    }
  }

  lemma {:induction false} FieldCompare(w: nat, n: nat, m: nat, x: string, y: string)
    requires n < Pow10(w) && m < Pow10(w)
    ensures Compare(Digits(w, n) + x, Digits(w, m) + y) == if n != m then Sign(n - m) else Compare(x, y)
  {
    DigitsCompare(w, n, m);
    CompareAppend(Digits(w, n), Digits(w, m), x, y);
  }

  lemma {:induction false} SameSeparator(c: char, x: string, y: string)
    ensures Compare([c] + x, [c] + y) == Compare(x, y)
  {
    assert ([c] + x)[1..] == x && ([c] + y)[1..] == y;
  }

  /** An absent fraction sorts before every fraction because the offset's sign sorts before the point. */
  lemma {:induction false} FractionCompare(n: nat, m: nat, offset: string)
    requires n < 1000000 && m < 1000000 && offset != "" && offset[0] < '.'
    ensures Compare(Fraction(n) + offset, Fraction(m) + offset) == Sign(n - m)
  {
    CompareEqual(offset, offset);
    assert n == 0 ==> Fraction(n) + offset == offset;
    assert m == 0 ==> Fraction(m) + offset == offset;
    if n != 0 && m != 0 {
      assert Pow10(6) == 1000000 by {
        assert Pow10(3) == 1000;
      }
      assert Fraction(n) + offset == ['.'] + (Digits(6, n) + offset);
      assert Fraction(m) + offset == ['.'] + (Digits(6, m) + offset);
      SameSeparator('.', Digits(6, n) + offset, Digits(6, m) + offset);
      FieldCompare(6, n, m, offset, offset);
    }
  }

  function Tail1(i: Instant, offset: string): string { Digits(2, i.second) + (Fraction(i.micro) + offset) }
  function Tail2(i: Instant, offset: string): string { Digits(2, i.minute) + (":" + Tail1(i, offset)) }
  function Tail3(i: Instant, offset: string): string { Digits(2, i.hour) + (":" + Tail2(i, offset)) }
  function DayThen(i: Instant, rest: string): string { Digits(2, i.day) + ("T" + rest) }
  function MonthThen(i: Instant, rest: string): string { Digits(2, i.month) + ("-" + DayThen(i, rest)) }
  function DateThen(i: Instant, rest: string): string { Digits(4, i.year) + ("-" + MonthThen(i, rest)) }

  /** Lexicographic order of the fields, given the order `c` of what follows the seconds. */
  function FieldOrder(a: Instant, b: Instant, c: int): int {
    if a.year != b.year then Sign(a.year - b.year)
    else if a.month != b.month then Sign(a.month - b.month)
    else if a.day != b.day then Sign(a.day - b.day)
    else if a.hour != b.hour then Sign(a.hour - b.hour)
    else if a.minute != b.minute then Sign(a.minute - b.minute)
    else if a.second != b.second then Sign(a.second - b.second)
    else c
  }

  lemma {:induction false} Widths()
    ensures Pow10(2) == 100 && Pow10(4) == 10000
  {
    assert Pow10(3) == 1000;
  }

  /** The time of day, and what follows it. */
  lemma {:induction false} RenderedTime(a: ValidInstant, b: ValidInstant, o: string, o': string)
    ensures Compare(Tail3(a, o), Tail3(b, o'))
         == if a.hour != b.hour then Sign(a.hour - b.hour)
            else if a.minute != b.minute then Sign(a.minute - b.minute)
            else if a.second != b.second then Sign(a.second - b.second)
            else Compare(Fraction(a.micro) + o, Fraction(b.micro) + o')
  {
    Widths();
    FieldCompare(2, a.second, b.second, Fraction(a.micro) + o, Fraction(b.micro) + o');
    SameSeparator(':', Tail1(a, o), Tail1(b, o'));
    FieldCompare(2, a.minute, b.minute, ":" + Tail1(a, o), ":" + Tail1(b, o'));
    SameSeparator(':', Tail2(a, o), Tail2(b, o'));
    FieldCompare(2, a.hour, b.hour, ":" + Tail2(a, o), ":" + Tail2(b, o'));
  }

  /** The date before a given rest. */
  lemma {:induction false} RenderedDate(a: ValidInstant, b: ValidInstant, x: string, y: string)
    ensures Compare(DateThen(a, x), DateThen(b, y))
         == if a.year != b.year then Sign(a.year - b.year)
            else if a.month != b.month then Sign(a.month - b.month)
            else if a.day != b.day then Sign(a.day - b.day)
            else Compare(x, y)
  {
    Widths();
    SameSeparator('T', x, y);
    FieldCompare(2, a.day, b.day, "T" + x, "T" + y);
    SameSeparator('-', DayThen(a, x), DayThen(b, y));
    FieldCompare(2, a.month, b.month, "-" + DayThen(a, x), "-" + DayThen(b, y));
    SameSeparator('-', MonthThen(a, x), MonthThen(b, y));
    FieldCompare(4, a.year, b.year, "-" + MonthThen(a, x), "-" + MonthThen(b, y));
  }

  lemma {:induction false} RenderedFields(a: ValidInstant, b: ValidInstant, o: string, o': string)
    ensures Compare(RenderAt(a, o), RenderAt(b, o'))
         == FieldOrder(a, b, Compare(Fraction(a.micro) + o, Fraction(b.micro) + o'))
  {
    RenderedTime(a, b, o, o');
    RenderedDate(a, b, Tail3(a, o), Tail3(b, o'));
    assert RenderAt(a, o) == DateThen(a, Tail3(a, o)) && RenderAt(b, o') == DateThen(b, Tail3(b, o'));
  }

  lemma {:induction false} FieldsAreChronological(a: ValidInstant, b: ValidInstant)
    ensures FieldOrder(a, b, Sign(a.micro - b.micro)) == Sign(Micros(a) - Micros(b))
  {
    if (a.year, a.month, a.day) != (b.year, b.month, b.day) {
      if FieldOrder(a, b, 0) < 0 {
        DatesGrow(a, b);
      } else {
        DatesGrow(b, a);
      }
    }
  }

  /** The string order of rendered instants is the order of time, whichever of them carry a fraction. */
  lemma {:induction false} StringOrderIsTimeOrder(a: ValidInstant, b: ValidInstant, offset: string)
    requires offset != "" && offset[0] < '.'
    ensures Compare(RenderAt(a, offset), RenderAt(b, offset)) == Sign(Micros(a) - Micros(b))
  {
    RenderedFields(a, b, offset, offset);
    FractionCompare(a.micro, b.micro, offset);
    FieldsAreChronological(a, b);
  }

  /** The store's expiry test `suppressed_until <= timestamp`. */
  lemma {:induction false} ExpiryTestIsChronological(until: ValidInstant, now: ValidInstant)
    ensures Le(Render(until), Render(now)) <==> Micros(until) <= Micros(now)
    ensures Render(until) == Render(now) <==> until == now
  {
    StringOrderIsTimeOrder(until, now, "+00:00");
    CompareEqual(Render(until), Render(now));
    if Micros(until) == Micros(now) && until != now {
      RenderedFields(until, now, "+00:00", "+00:00");
      FractionCompare(until.micro, now.micro, "+00:00");
    }
  }

  // ---- offsets other than UTC ----

  /** Seconds east of UTC, less than a day either way. */
  type Offset = z: int | -86400 < z < 86400

  /** The offset as `isoformat` writes it; the seconds are omitted when they are zero. */
  function OffsetText(z: Offset): (s: string)
    ensures s != "" && s[0] < '.'
  {
    var n := if z < 0 then -z else z;
    (if z < 0 then "-" else "+") + (Digits(2, n / 3600) + (":" + Digits(2, n / 60 % 60)))
    + (if n % 60 == 0 then "" else ":" + Digits(2, n % 60))
  }

  /** The instant of a wall-clock time at an offset, in microseconds. */
  function Utc(local: ValidInstant, z: Offset): int {
    Micros(local) - z * 1000000
  }

  /** The string test decides which of two instants is earlier, for all wall-clock times at these offsets. */
  ghost predicate TestDecides(z: Offset, z': Offset) {
    forall a: ValidInstant, b: ValidInstant :: OffsetTestRight(a, z, b, z')
  }

  predicate OffsetTestRight(a: ValidInstant, z: Offset, b: ValidInstant, z': Offset) {
    Le(RenderAt(a, OffsetText(z)), RenderAt(b, OffsetText(z'))) <==> Utc(a, z) <= Utc(b, z')
  }

  /** A whole second sorts before the same second with a fraction, whatever the offsets. */
  lemma {:induction false} FractionLast(t: ValidInstant, o: string, o': string)
    requires t.micro == 0 && o != "" && o[0] < '.' && o' != "" && o'[0] < '.'
    ensures Compare(RenderAt(t, o), RenderAt(t.(micro := 1), o')) == -1
    ensures Compare(RenderAt(t.(micro := 1), o'), RenderAt(t, o)) == 1
  {
    RenderedFields(t, t.(micro := 1), o, o');
    assert Fraction(0) + o == o && (Fraction(1) + o')[0] == '.';
    CompareFlip(RenderAt(t, o), RenderAt(t.(micro := 1), o'));
  }

  /** With different offsets the test errs within every second. */
  lemma {:induction false} MixedOffsetsMisorder(t: ValidInstant, z: Offset, z': Offset)
    requires t.micro == 0 && z != z'
    ensures !OffsetTestRight(t, z, t.(micro := 1), z') || !OffsetTestRight(t.(micro := 1), z, t, z')
  {
    FractionLast(t, OffsetText(z), OffsetText(z'));
    FractionLast(t, OffsetText(z'), OffsetText(z));
    assert Micros(t.(micro := 1)) == Micros(t) + 1;
  }

  /** The string test is chronological for a pair of offsets exactly when they are equal. */
  lemma {:induction false} OffsetCondition(z: Offset, z': Offset)
    ensures TestDecides(z, z') <==> z == z'
  {
    if z == z' {
      forall a: ValidInstant, b: ValidInstant ensures OffsetTestRight(a, z, b, z') {
        StringOrderIsTimeOrder(a, b, OffsetText(z));
      }
    } else {
      MixedOffsetsMisorder(Instant(1, 1, 1, 0, 0, 0, 0), z, z');
    }
  }

  lemma {:induction false} UtcText()
    ensures OffsetText(0) == "+00:00"
  {
    assert Digits(1, 0) == "0";
    assert Digits(2, 0) == Digits(1, 0) + "0";
  }

  /** The expiry test on a value read back at offset `z`, against a fresh UTC timestamp. */
  predicate ExpiryTestRight(until: ValidInstant, z: Offset, now: ValidInstant) {
    Le(RenderAt(until, OffsetText(z)), Render(now)) <==> Utc(until, z) <= Micros(now)
  }

  /** It is right for all instants exactly when values are read back in UTC. */
  lemma {:induction false} ReadBackCondition(z: Offset)
    ensures (forall until: ValidInstant, now: ValidInstant :: ExpiryTestRight(until, z, now)) <==> z == 0
  {
    UtcText();
    OffsetCondition(z, 0);
    forall until: ValidInstant, now: ValidInstant ensures ExpiryTestRight(until, z, now) <==> OffsetTestRight(until, z, now, 0) {
    }
  }
}
