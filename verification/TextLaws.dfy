/** What the string, rounding and calendar vocabulary means, apart from how it is computed. */
module TextLaws {
  import opened Common
  import opened Text
  import opened Timestamps

  // ---- order and strip ----

  /** The texts agree up to `k`, where the first ends or has the smaller character. */
  predicate Before(a: string, b: string, k: nat) {
    && k <= |a| && k < |b| && a[..k] == b[..k]
    && (k == |a| || a[k] < b[k])
  }

  lemma {:induction false} BeforeCons(c: char, a: string, b: string, k: nat)
    ensures Before([c] + a, [c] + b, k + 1) <==> Before(a, b, k)
  {
    var x, y := [c] + a, [c] + b;
    if k <= |a| && k <= |b| {
      assert x[..k + 1] == [c] + a[..k] && y[..k + 1] == [c] + b[..k];
      assert a[..k] == x[..k + 1][1..] && b[..k] == y[..k + 1][1..];
    }
  }

  lemma {:induction false} BeforeTail(a: string, b: string, k: nat)
    requires a != "" && b != "" && Before(a, b, k)
    ensures if a[0] == b[0] then k > 0 && Before(a[1..], b[1..], k - 1) else k == 0 && a[0] < b[0]
  {
    assert a == [a[0]] + a[1..] && b == [b[0]] + b[1..];
    if k > 0 {
      assert a[..k][0] == a[0] && b[..k][0] == b[0];
      BeforeCons(a[0], a[1..], b[1..], k - 1);
    }
  }

  ghost predicate ComesFirst(a: string, b: string) {
    exists k: nat :: Before(a, b, k)
  }

  /** One text comes first exactly when it is a proper prefix or has the smaller character at the first difference. */
  lemma {:induction false} CompareMeans(a: string, b: string)
    ensures Compare(a, b) < 0 <==> ComesFirst(a, b)
  {
    if a != "" && b != "" {
      assert a == [a[0]] + a[1..] && b == [b[0]] + b[1..];
      if a[0] == b[0] {
        CompareMeans(a[1..], b[1..]);
        if ComesFirst(a[1..], b[1..]) {
          var k: nat :| Before(a[1..], b[1..], k);
          BeforeCons(a[0], a[1..], b[1..], k);
        }
      } else {
        assert a[0] < b[0] ==> Before(a, b, 0);
      }
      if ComesFirst(a, b) {
        var k: nat :| Before(a, b, k);
        BeforeTail(a, b, k);
      }
    } else if b != "" {
      assert Before(a, b, 0);
    }
  }

  /** The characters that `strip` removes. */
  lemma {:induction false} SpacesAre(c: char)
    ensures IsSpace(c) <==>
      || c in {' ', '\t', '\n', '\U{0b}', '\U{0c}', '\r', '\U{1c}', '\U{1d}', '\U{1e}', '\U{1f}', '\U{85}', '\U{a0}', '\U{1680}'}
      || c in {'\U{2000}', '\U{2001}', '\U{2002}', '\U{2003}', '\U{2004}', '\U{2005}', '\U{2006}', '\U{2007}', '\U{2008}',
               '\U{2009}', '\U{200a}', '\U{2028}', '\U{2029}', '\U{202f}', '\U{205f}', '\U{3000}'}
  {
  }

  predicate AllSpace(s: string) {
    forall i :: 0 <= i < |s| ==> IsSpace(s[i])
  }

  lemma {:induction false} StripLeftTakes(s: string) returns (left: string)
    ensures s == left + StripLeft(s) && AllSpace(left)
    ensures StripLeft(s) != "" ==> !IsSpace(StripLeft(s)[0])
  {
    if s != "" && IsSpace(s[0]) {
      var l := StripLeftTakes(s[1..]);
      left := [s[0]] + l;
      assert s == [s[0]] + s[1..];
    } else {
      left := "";
    }
  }

  lemma {:induction false} StripRightTakes(s: string) returns (right: string)
    ensures s == StripRight(s) + right && AllSpace(right)
    ensures StripRight(s) != "" ==> !IsSpace(StripRight(s)[|StripRight(s)| - 1]) && StripRight(s)[0] == s[0]
  {
    if s != "" && IsSpace(s[|s| - 1]) {
      var init := s[..|s| - 1];
      var r := StripRightTakes(init);
      right := r + [s[|s| - 1]];
      assert s == init + [s[|s| - 1]];
    } else {
      right := "";
    }
  }

  /** Stripping removes white space at both ends and nothing else. */
  lemma {:induction false} StripExactly(s: string) returns (left: string, right: string)
    ensures s == left + Strip(s) + right && AllSpace(left) && AllSpace(right)
    ensures Strip(s) != "" ==> !IsSpace(Strip(s)[0]) && !IsSpace(Strip(s)[|Strip(s)| - 1])
  {
    left := StripLeftTakes(s);
    right := StripRightTakes(StripLeft(s));
  }

  lemma {:induction false} StripsToNothing(s: string)
    ensures Strip(s) == "" <==> AllSpace(s)
  {
    var left, right := StripExactly(s);
    if Strip(s) == "" {
      assert s == left + right;
      forall i | 0 <= i < |s| ensures IsSpace(s[i]) {
        assert s[i] == if i < |left| then left[i] else right[i - |left|];
      }
    } else {
      assert s[|left|] == Strip(s)[0];
    }
  }

  // ---- rounding ----

  /** The nearest integer, and of two equally near ones the even one. */
  lemma {:induction false} RoundsToNearest(x: real)
    ensures var n := RoundHalfEven(x);
            && -0.5 <= x - n as real <= 0.5
            && (x - n as real == 0.5 || x - n as real == -0.5 ==> n % 2 == 0)
  {
  }

  // ---- rendering ----

  function Value(s: string): int {
    if s == "" then 0 else 10 * Value(s[..|s| - 1]) + (s[|s| - 1] as int - '0' as int)
  }

  lemma {:induction false} DigitsValue(w: nat, n: nat)
    requires n < Pow10(w)
    ensures Value(Digits(w, n)) == n
  {
    if w > 0 {
      var s := Digits(w, n);
      DigitsValue(w - 1, n / 10);
      assert s[..w - 1] == Digits(w - 1, n / 10);
    }
  }

  /** `s` is a field of `w` digits with value `n`, a separator and `rest`. */
  predicate Field(s: string, w: nat, n: nat, separator: char, rest: string) {
    |s| == w + 1 + |rest| && Value(s[..w]) == n && s[w] == separator && s[w + 1..] == rest
  }

  lemma {:induction false} FieldReads(w: nat, n: nat, separator: char, rest: string)
    requires n < Pow10(w)
    ensures Field(Digits(w, n) + ([separator] + rest), w, n, separator, rest)
  {
    DigitsValue(w, n);
    assert (Digits(w, n) + ([separator] + rest))[..w] == Digits(w, n);
  }

  /** A rendered instant reads as its fields in turn: year, month, day, hour, minute. */
  lemma {:induction false} RenderReads(i: ValidInstant, offset: string)
    ensures Field(RenderAt(i, offset), 4, i.year, '-', MonthThen(i, Tail3(i, offset)))
    ensures Field(MonthThen(i, Tail3(i, offset)), 2, i.month, '-', DayThen(i, Tail3(i, offset)))
    ensures Field(DayThen(i, Tail3(i, offset)), 2, i.day, 'T', Tail3(i, offset))
    ensures Field(Tail3(i, offset), 2, i.hour, ':', Tail2(i, offset))
    ensures Field(Tail2(i, offset), 2, i.minute, ':', Tail1(i, offset))
  {
    Widths();
    FieldReads(4, i.year, '-', MonthThen(i, Tail3(i, offset)));
    FieldReads(2, i.month, '-', DayThen(i, Tail3(i, offset)));
    FieldReads(2, i.day, 'T', Tail3(i, offset));
    FieldReads(2, i.hour, ':', Tail2(i, offset));
    FieldReads(2, i.minute, ':', Tail1(i, offset));
  }

  /** The rest is the seconds, the fraction if there is one, and the offset. */
  lemma {:induction false} SecondsRead(i: ValidInstant, offset: string)
    ensures var s := Tail1(i, offset);
            |s| >= 2 && Value(s[..2]) == i.second && s[2..] == Fraction(i.micro) + offset
  {
    Widths();
    DigitsValue(2, i.second);
    assert Tail1(i, offset)[..2] == Digits(2, i.second);
  }

  lemma {:induction false} FractionReads(micro: nat)
    requires micro < 1000000
    ensures if micro == 0 then Fraction(micro) == ""
            else |Fraction(micro)| == 7 && Fraction(micro)[0] == '.' && Value(Fraction(micro)[1..]) == micro
  {
    if micro != 0 {
      assert Pow10(6) == 1000000 by {
        assert Pow10(3) == 1000;
      }
      DigitsValue(6, micro);
      assert Fraction(micro)[1..] == Digits(6, micro);
    }
  }

  // ---- the calendar ----

  /** The length of each month. */
  lemma {:induction false} MonthLengths(y: nat, m: nat)
    requires 1 <= m <= 12
    ensures m in {1, 3, 5, 7, 8, 10, 12} ==> DaysInMonth(y, m) == 31
    ensures m in {4, 6, 9, 11} ==> DaysInMonth(y, m) == 30
    ensures m == 2 ==> DaysInMonth(y, m) == if y % 400 == 0 || (y % 4 == 0 && y % 100 != 0) then 29 else 28
  {
  }

  /** The instant one microsecond later, by carrying. */
  function Tick(i: ValidInstant): Instant {
    if i.micro < 999999 then i.(micro := i.micro + 1)
    else if i.second < 59 then i.(micro := 0, second := i.second + 1)
    else if i.minute < 59 then i.(micro := 0, second := 0, minute := i.minute + 1)
    else if i.hour < 23 then i.(micro := 0, second := 0, minute := 0, hour := i.hour + 1)
    else if i.day < DaysInMonth(i.year, i.month) then Instant(i.year, i.month, i.day + 1, 0, 0, 0, 0)
    else if i.month < 12 then Instant(i.year, i.month + 1, 1, 0, 0, 0, 0)
    else Instant(i.year + 1, 1, 1, 0, 0, 0, 0)
  }

  lemma {:induction false} YearEnds(y: nat)
    requires y >= 1
    ensures DaysBeforeYear(y) + DaysBeforeMonth(y, 12) + DaysInMonth(y, 12) == DaysBeforeYear(y + 1)
  {
    YearStep(y);
    YearHoldsMonths(y);
    assert DaysBeforeMonth(y, 13) == DaysBeforeMonth(y, 12) + DaysInMonth(y, 12);
  }

  lemma {:induction false} MonthEnds(y: nat, m: nat)
    requires m >= 1
    ensures DaysBeforeMonth(y, m) + DaysInMonth(y, m) == DaysBeforeMonth(y, m + 1)
  {
  }

  /** Midnight starts the next day. */
  lemma {:induction false} NextDay(i: ValidInstant)
    requires i.micro == 999999 && i.second == 59 && i.minute == 59 && i.hour == 23
    ensures Tick(i).year >= 1 && Tick(i).month >= 1 && Ordinal(Tick(i)) == Ordinal(i) + 1
    ensures Tick(i).hour == 0 && Tick(i).minute == 0 && Tick(i).second == 0 && Tick(i).micro == 0
  {
    if i.day == DaysInMonth(i.year, i.month) {
      if i.month < 12 {
        MonthEnds(i.year, i.month);
      } else {
        YearEnds(i.year);
        assert DaysBeforeMonth(i.year + 1, 1) == 0;
      }
    }
  }

  /** The microsecond count counts: the next instant of the calendar has the next number. */
  lemma {:induction false} MicrosCount(i: ValidInstant)
    ensures Tick(i).year >= 1 && Tick(i).month >= 1 && Micros(Tick(i)) == Micros(i) + 1
  {
    if i.micro == 999999 && i.second == 59 && i.minute == 59 && i.hour == 23 {
      NextDay(i);
    } else {
      assert Ordinal(Tick(i)) == Ordinal(i);
    }
  }
}
