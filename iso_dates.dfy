/** The calendar's date strings: `${year}-${MM}-${DD}` with month and day
    zero-padded to two digits, compared with JavaScript's string `<`, which
    orders strings code unit by code unit. For four-digit years this order
    is the chronological order of (year, month, day). */
module IsoDates {

  /** The decimal digit character of `d`. */
  function Digit(d: int): (c: char)
    requires 0 <= d < 10
    ensures '0' <= c <= '9' && c as int - '0' as int == d
  {
    (d + '0' as int) as char
  }

  /** `String(n)` for a natural number: its decimal digits, no leading zero. */
  function NatString(n: nat): (s: string)
    ensures 1 <= |s| && (n < 10 <==> |s| == 1)
    ensures forall i :: 0 <= i < |s| ==> '0' <= s[i] <= '9'
    decreases n
  {
    if n < 10 then [Digit(n)] else NatString(n / 10) + [Digit(n % 10)]
  }

  /** `s.padStart(2, '0')`. */
  function PadStart2(s: string): (r: string)
    ensures |r| == if |s| >= 2 then |s| else 2
    ensures |s| >= 2 ==> r == s
    ensures |s| < 2 ==> r[2 - |s|..] == s
    ensures forall i :: 0 <= i < 2 - |s| ==> r[i] == '0'
  {
    if |s| >= 2 then s else if |s| == 1 then "0" + s else "00"
  }

  /** The date string the calendar builds for day `day` of the 0-based
      month `month` of `year`. */
  function DateString(year: nat, month: nat, day: nat): string
  {
    NatString(year) + "-" + PadStart2(NatString(month + 1)) + "-" + PadStart2(NatString(day))
  }

  /** JavaScript's `a < b` on strings: the first differing code unit
      decides, and a proper prefix is smaller. */
  predicate StrLt(a: string, b: string)
  {
    if |a| == 0 then |b| > 0
    else if |b| == 0 then false
    else if a[0] != b[0] then a[0] < b[0]
    else StrLt(a[1..], b[1..])
  }

  /** JavaScript's `a <= b` on strings, which is `!(b < a)`. */
  predicate StrLe(a: string, b: string)
  {
    !StrLt(b, a)
  }

  /** Lexicographic order on (year, month, day). */
  predicate TupleLt(y1: int, m1: int, d1: int, y2: int, m2: int, d2: int)
  {
    y1 < y2 || (y1 == y2 && (m1 < m2 || (m1 == m2 && d1 < d2)))
  }

  function Pow10(w: nat): (p: nat)
    ensures p >= 1
  {
    if w == 0 then 1 else 10 * Pow10(w - 1)
  }

  /** The last `w` decimal digits of `n`, leading zeros included. */
  function FixedDigits(n: nat, w: nat): (s: string)
    ensures |s| == w
  {
    if w == 0 then [] else FixedDigits(n / 10, w - 1) + [Digit(n % 10)]
  }

  /** `StrLt` is a strict total order on strings. */
  lemma {:induction false} StrLtTotal(a: string, b: string)
    ensures !(StrLt(a, b) && StrLt(b, a))
    ensures a != b ==> StrLt(a, b) || StrLt(b, a)
    decreases |a|
  {
    if |a| > 0 && |b| > 0 && a[0] == b[0] {
      StrLtTotal(a[1..], b[1..]);
      if a != b {
        assert a == [a[0]] + a[1..] && b == [b[0]] + b[1..];
        assert a[1..] != b[1..];
      }
    }
  }

  /** Comparing two concatenations whose first parts have the same length:
      the first parts decide unless they are equal. */
  lemma {:induction false} StrLtConcat(a: string, c: string, b: string, d: string)
    requires |a| == |b|
    ensures a != b ==> (StrLt(a + c, b + d) <==> StrLt(a, b))
    ensures a == b ==> (StrLt(a + c, b + d) <==> StrLt(c, d))
    decreases |a|
  {
    if |a| == 0 {
      assert a + c == c && b + d == d;
    } else {
      assert (a + c)[0] == a[0] && (b + d)[0] == b[0];
      assert (a + c)[1..] == a[1..] + c && (b + d)[1..] == b[1..] + d;
      StrLtConcat(a[1..], c, b[1..], d);
      if a[0] == b[0] && a != b {
        assert a == [a[0]] + a[1..] && b == [b[0]] + b[1..];
      }
    }
  }

  /** Fixed-width digit strings are ordered and told apart as their numbers. */
  lemma {:induction false} FixedDigitsOrder(n: nat, k: nat, w: nat)
    requires n < Pow10(w) && k < Pow10(w)
    ensures StrLt(FixedDigits(n, w), FixedDigits(k, w)) <==> n < k
    ensures FixedDigits(n, w) == FixedDigits(k, w) <==> n == k
  {
    if w == 0 {
      assert n == 0 && k == 0;
    } else {
      var a, b := FixedDigits(n / 10, w - 1), FixedDigits(k / 10, w - 1);
      assert n / 10 < Pow10(w - 1) && k / 10 < Pow10(w - 1);
      FixedDigitsOrder(n / 10, k / 10, w - 1);
      StrLtConcat(a, [Digit(n % 10)], b, [Digit(k % 10)]);
      if a == b {
        assert StrLt([Digit(n % 10)], [Digit(k % 10)]) <==> n % 10 < k % 10 by {
          assert [Digit(n % 10)][1..] == [] && [Digit(k % 10)][1..] == [];
        }
        if FixedDigits(n, w) == FixedDigits(k, w) {
          assert FixedDigits(n, w)[w - 1] == Digit(n % 10) && FixedDigits(k, w)[w - 1] == Digit(k % 10);
        }
      } else {
        assert FixedDigits(n, w)[..w - 1] == a && FixedDigits(k, w)[..w - 1] == b;
      }
    }
  }

  /** `String(n)` of a number with exactly `w` digits is its fixed-width form. */
  lemma {:induction false} NatStringFixed(n: nat, w: nat)
    requires 1 <= w && Pow10(w - 1) <= n < Pow10(w)
    ensures NatString(n) == FixedDigits(n, w)
  {
    if w > 1 {
      assert Pow10(w - 2) <= n / 10 < Pow10(w - 1);
      NatStringFixed(n / 10, w - 1);
    }
  }

  /** A month number or day of the month, padded, is its two-digit form. */
  lemma PaddedTwoDigits(n: nat)
    requires n < 100
    ensures PadStart2(NatString(n)) == FixedDigits(n, 2)
  {
    if n < 10 {
      assert NatString(n) == [Digit(n)];
    } else {
      NatStringFixed(n, 2);
    }
  }

  /** Concatenations whose first parts have the same length are equal
      exactly when both parts are. */
  lemma ConcatEq(a: string, c: string, b: string, d: string)
    requires |a| == |b|
    ensures a + c == b + d <==> a == b && c == d
  {
    if a + c == b + d {
      assert (a + c)[..|a|] == a && (b + d)[..|b|] == b;
      assert (a + c)[|a|..] == c && (b + d)[|b|..] == d;
    }
  }

  /** The `Y-M-D` layout, nested to the right. */
  function Layout(y: string, m: string, d: string): string
  {
    y + ("-" + (m + ("-" + d)))
  }

  /** `"-" + x` and `"-" + y` compare and are told apart as `x` and `y`. */
  lemma DashOrder(x: string, y: string)
    ensures StrLt("-" + x, "-" + y) <==> StrLt(x, y)
    ensures "-" + x == "-" + y <==> x == y
  {
    StrLtConcat("-", x, "-", y);
    ConcatEq("-", x, "-", y);
  }

  /** Everything after the year: `-M-D`. */
  lemma TailOrder(m1: string, d1: string, m2: string, d2: string)
    requires |m1| == |m2|
    ensures StrLt("-" + (m1 + ("-" + d1)), "-" + (m2 + ("-" + d2))) <==>
              StrLt(m1, m2) || (m1 == m2 && StrLt(d1, d2))
    ensures "-" + (m1 + ("-" + d1)) == "-" + (m2 + ("-" + d2)) <==> m1 == m2 && d1 == d2
  {
    DashOrder(m1 + ("-" + d1), m2 + ("-" + d2));
    StrLtConcat(m1, "-" + d1, m2, "-" + d2);
    ConcatEq(m1, "-" + d1, m2, "-" + d2);
    DashOrder(d1, d2);
    StrLtTotal(m1, m2);
  }

  /** Two layouts whose parts have the same widths compare part by part,
      year first. */
  lemma LayoutOrder(y1: string, m1: string, d1: string, y2: string, m2: string, d2: string)
    requires |y1| == |y2| && |m1| == |m2|
    ensures StrLt(Layout(y1, m1, d1), Layout(y2, m2, d2)) <==>
              StrLt(y1, y2) || (y1 == y2 && (StrLt(m1, m2) || (m1 == m2 && StrLt(d1, d2))))
    ensures Layout(y1, m1, d1) == Layout(y2, m2, d2) <==> y1 == y2 && m1 == m2 && d1 == d2
  {
    var t1, t2 := "-" + (m1 + ("-" + d1)), "-" + (m2 + ("-" + d2));
    StrLtConcat(y1, t1, y2, t2);
    ConcatEq(y1, t1, y2, t2);
    TailOrder(m1, d1, m2, d2);
    StrLtTotal(y1, y2);
  }

  /** The calendar's date string of a four-digit year is the fixed-width layout. */
  lemma DateStringIsLayout(y: nat, m: nat, d: nat)
    requires 1000 <= y <= 9999 && m < 12 && d < 100
    ensures DateString(y, m, d) == Layout(FixedDigits(y, 4), FixedDigits(m + 1, 2), FixedDigits(d, 2))
  {
    assert Pow10(3) == 1000 && Pow10(4) == 10000 by {
      assert Pow10(1) == 10 && Pow10(2) == 100;
    }
    NatStringFixed(y, 4);
    PaddedTwoDigits(m + 1);
    PaddedTwoDigits(d);
  }

  /** Each fixed-width field of two dates compares as its number. */
  lemma FieldsOrder(y1: nat, m1: nat, d1: nat, y2: nat, m2: nat, d2: nat)
    requires y1 < 10000 && y2 < 10000 && m1 < 12 && m2 < 12 && d1 < 100 && d2 < 100
    ensures (StrLt(FixedDigits(y1, 4), FixedDigits(y2, 4)) <==> y1 < y2) && (FixedDigits(y1, 4) == FixedDigits(y2, 4) <==> y1 == y2)
    ensures (StrLt(FixedDigits(m1 + 1, 2), FixedDigits(m2 + 1, 2)) <==> m1 < m2) && (FixedDigits(m1 + 1, 2) == FixedDigits(m2 + 1, 2) <==> m1 == m2)
    ensures (StrLt(FixedDigits(d1, 2), FixedDigits(d2, 2)) <==> d1 < d2) && (FixedDigits(d1, 2) == FixedDigits(d2, 2) <==> d1 == d2)
  {
    assert Pow10(2) == 100 && Pow10(4) == 10000 by {
      assert Pow10(1) == 10 && Pow10(3) == 1000;
    }
    FixedDigitsOrder(y1, y2, 4);
    FixedDigitsOrder(m1 + 1, m2 + 1, 2);
    FixedDigitsOrder(d1, d2, 2);
  }

  /** For four-digit years, valid months and days of the month, the string
      order the calendar relies on is the chronological order. */
  lemma DateStringOrder(y1: nat, m1: nat, d1: nat, y2: nat, m2: nat, d2: nat)
    requires 1000 <= y1 <= 9999 && 1000 <= y2 <= 9999
    requires m1 < 12 && m2 < 12 && d1 < 100 && d2 < 100
    ensures StrLt(DateString(y1, m1, d1), DateString(y2, m2, d2)) <==> TupleLt(y1, m1, d1, y2, m2, d2)
    ensures DateString(y1, m1, d1) == DateString(y2, m2, d2) <==> y1 == y2 && m1 == m2 && d1 == d2
  {
    DateStringIsLayout(y1, m1, d1);
    DateStringIsLayout(y2, m2, d2);
    var a1, b1, c1 := FixedDigits(y1, 4), FixedDigits(m1 + 1, 2), FixedDigits(d1, 2);
    var a2, b2, c2 := FixedDigits(y2, 4), FixedDigits(m2 + 1, 2), FixedDigits(d2, 2);
    FieldsOrder(y1, m1, d1, y2, m2, d2);
    LayoutOrder(a1, b1, c1, a2, b2, c2);
  }
}
