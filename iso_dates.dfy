/** Calendar dates written as `YYYY-MM-DD`, the form the dashboard's date
    inputs produce and its logs store. Because every field is zero-padded to a
    fixed width, comparing two such strings lexicographically orders them by
    date, which is what the range filter relies on. */
module IsoDates {
  import opened DateOrder

  function Pow10(n: nat): (p: nat)
    ensures p >= 1
  {
    if n == 0 then 1 else 10 * Pow10(n - 1)
  }

  function DigitChar(d: nat): char
    requires d < 10
  {
    ('0' as int + d) as char
  }

  /** `n` written with exactly `w` decimal digits, leading zeros included. */
  function Digits(n: nat, w: nat): (s: string)
    requires n < Pow10(w)
    ensures |s| == w
  {
    if w == 0 then [] else
      assert n / 10 < Pow10(w - 1);
      Digits(n / 10, w - 1) + [DigitChar(n % 10)]
  }

  /** Two numbers of the same width compare as their digit strings do, and
      have the same digit string exactly when they are equal. */
  lemma {:induction false} DigitsOrder(a: nat, b: nat, w: nat)
    requires a < Pow10(w) && b < Pow10(w)
    ensures LexLe(Digits(a, w), Digits(b, w)) <==> a <= b
    ensures Digits(a, w) == Digits(b, w) <==> a == b
  {
    if w == 0 {
      assert a == 0 && b == 0;
    } else {
      assert a / 10 < Pow10(w - 1) && b / 10 < Pow10(w - 1);
      DigitsOrder(a / 10, b / 10, w - 1);
      var hiA, hiB := Digits(a / 10, w - 1), Digits(b / 10, w - 1);
      var loA, loB := [DigitChar(a % 10)], [DigitChar(b % 10)];
      LexLeAppend(hiA, loA, hiB, loB);
      assert LexLe(loA, loB) <==> a % 10 <= b % 10 by {
        if loA[0] == loB[0] {
          assert loA[1..] == [];
        }
      }
      assert hiA + loA == hiB + loB <==> hiA == hiB && loA == loB by {
        if hiA + loA == hiB + loB {
          assert hiA == (hiA + loA)[..w - 1] && hiB == (hiB + loB)[..w - 1];
          assert loA[0] == (hiA + loA)[w - 1] && loB[0] == (hiB + loB)[w - 1];
        }
      }
      assert a == 10 * (a / 10) + a % 10 && b == 10 * (b / 10) + b % 10;
    }
  }

  datatype Date = Date(year: nat, month: nat, day: nat)

  /** The dates a four-digit `YYYY-MM-DD` string can spell (the day is not
      checked against the month's length). */
  predicate ValidDate(d: Date)
  {
    d.year < 10000 && 1 <= d.month <= 12 && 1 <= d.day <= 31
  }

  /** Calendar order: by year, then month, then day. */
  predicate OnOrBefore(a: Date, b: Date)
  {
    a.year < b.year
    || (a.year == b.year && a.month < b.month)
    || (a.year == b.year && a.month == b.month && a.day <= b.day)
  }

  /** The `YYYY-MM-DD` spelling of a date. */
  function IsoDate(d: Date): (s: string)
    requires ValidDate(d)
    ensures |s| == 10 && s[4] == '-' && s[7] == '-'
  {
    Digits(d.year, 4) + MonthDay(d)
  }

  /** The `-MM-DD` tail of a date's spelling. */
  function MonthDay(d: Date): (s: string)
    requires ValidDate(d)
    ensures |s| == 6
  {
    ['-'] + Digits(d.month, 2) + (['-'] + Digits(d.day, 2))
  }

  /** Comparing two `YYYY-MM-DD` strings as JavaScript does orders them by
      date, and two such strings are equal exactly when the dates are. */
  lemma IsoDateOrder(a: Date, b: Date)
    requires ValidDate(a) && ValidDate(b)
    ensures LexLe(IsoDate(a), IsoDate(b)) <==> OnOrBefore(a, b)
    ensures IsoDate(a) == IsoDate(b) <==> a == b
  {
    DigitsOrder(a.year, b.year, 4);
    DigitsOrder(a.month, b.month, 2);
    DigitsOrder(a.day, b.day, 2);
    var dayA, dayB := ['-'] + Digits(a.day, 2), ['-'] + Digits(b.day, 2);
    LexLeAppend(['-'], Digits(a.day, 2), ['-'], Digits(b.day, 2));
    LexLeAppend(['-'] + Digits(a.month, 2), dayA, ['-'] + Digits(b.month, 2), dayB);
    LexLeAppend(['-'], Digits(a.month, 2), ['-'], Digits(b.month, 2));
    LexLeAppend(Digits(a.year, 4), MonthDay(a), Digits(b.year, 4), MonthDay(b));
    SplitEqual(Digits(a.year, 4), MonthDay(a), Digits(b.year, 4), MonthDay(b));
    SplitEqual(['-'] + Digits(a.month, 2), dayA, ['-'] + Digits(b.month, 2), dayB);
    SplitEqual(['-'], Digits(a.month, 2), ['-'], Digits(b.month, 2));
    SplitEqual(['-'], Digits(a.day, 2), ['-'], Digits(b.day, 2));
  }

  lemma SplitEqual(x1: string, x2: string, y1: string, y2: string)
    requires |x1| == |y1|
    ensures x1 + x2 == y1 + y2 <==> x1 == y1 && x2 == y2
  {
    if x1 + x2 == y1 + y2 {
      assert x1 == (x1 + x2)[..|x1|] && y1 == (y1 + y2)[..|y1|];
      assert x2 == (x1 + x2)[|x1|..] && y2 == (y1 + y2)[|y1|..];
    }
  }
}
