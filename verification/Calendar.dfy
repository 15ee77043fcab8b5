/**
 Dates as the partition planner writes them: months counted from January of year 0, and texts
 `YYYY-MM-DD` whose string order is the order of the dates.
 */
module Calendar {
  import opened Text

  const LAST_MONTH := 119999 // December of the year 9999

  /** `month` counts from January of the year 0. */
  datatype Date = Date(month: nat, day: nat)

  predicate IsDate(d: Date) {
    d.month <= LAST_MONTH && 1 <= d.day <= 31
  }

  predicate Before(a: Date, b: Date) {
    a.month < b.month || (a.month == b.month && a.day < b.day)
  }

  function Digit(n: nat): char
    requires n < 10
  {
    ('0' as int + n) as char
  }

  /** The last `width` decimal digits of a number. */
  function Padded(n: nat, width: nat): (text: string)
    ensures |text| == width
  {
    if width == 0 then "" else Padded(n / 10, width - 1) + [Digit(n % 10)]
  }

  predicate AreDigits(text: string) {
    forall i :: 0 <= i < |text| ==> '0' <= text[i] <= '9'
  }

  lemma {:induction false} PaddedAreDigits(n: nat, width: nat)
    ensures AreDigits(Padded(n, width))
  {
    if width > 0 {
      PaddedAreDigits(n / 10, width - 1);
    }
  }

  function Pow10(n: nat): (p: nat)
    ensures p > 0
  {
    if n == 0 then 1 else 10 * Pow10(n - 1)
  }

  /** Numbers written in one width sort as numbers. */
  lemma {:induction false} PaddedOrder(a: nat, b: nat, width: nat)
    requires a < Pow10(width) && b < Pow10(width)
    ensures Less(Padded(a, width), Padded(b, width)) <==> a < b
    ensures Padded(a, width) == Padded(b, width) <==> a == b
  {
    if width > 0 {
      PaddedOrder(a / 10, b / 10, width - 1);
      var fa, fb, da, db := Padded(a / 10, width - 1), Padded(b / 10, width - 1), [Digit(a % 10)], [Digit(b % 10)];
      LessByParts(fa, da, fb, db);
      assert da[1..] == [] && db[1..] == [];
      assert Less(da, db) <==> a % 10 < b % 10;
      assert Padded(a, width)[..width - 1] == fa && Padded(b, width)[..width - 1] == fb;
      assert Padded(a, width)[width - 1] == da[0] && Padded(b, width)[width - 1] == db[0];
    }
  }

  function DateText(d: Date): (text: string)
    ensures |text| == 10
  {
    Fields(Padded(d.month / 12, 4), Padded(d.month % 12 + 1, 2), Padded(d.day, 2))
  }

  lemma {:induction false} TwoFieldsOrder(x: string, a: string, y: string, b: string)
    requires |x| == |y|
    ensures Less(x + ("-" + a), y + ("-" + b)) <==> Less(x, y) || (x == y && Less(a, b))
  {
    LessByParts(x, "-" + a, y, "-" + b);
    LessAfterPrefix("-", a, b);
  }

  function Fields(x: string, y: string, z: string): string {
    x + ("-" + (y + ("-" + z)))
  }

  lemma {:induction false} FieldsOrder(x: string, y: string, z: string, u: string, v: string, w: string)
    requires |x| == |u| && |y| == |v|
    ensures Less(Fields(x, y, z), Fields(u, v, w)) <==> Less(x, u) || (x == u && (Less(y, v) || (y == v && Less(z, w))))
  {
    TwoFieldsOrder(x, y + ("-" + z), u, v + ("-" + w));
    TwoFieldsOrder(y, z, v, w);
  }

  lemma {:induction false} PowersOfTen()
    ensures Pow10(2) == 100 && Pow10(4) == 10000
  {
    assert Pow10(1) == 10;
    assert Pow10(3) == 1000;
  }

  lemma {:induction false} NumbersOrder(y: nat, m: nat, d: nat, u: nat, n: nat, e: nat)
    requires y < 10000 && u < 10000 && m < 100 && n < 100 && d < 100 && e < 100
    ensures Less(Fields(Padded(y, 4), Padded(m, 2), Padded(d, 2)), Fields(Padded(u, 4), Padded(n, 2), Padded(e, 2)))
       <==> y < u || (y == u && (m < n || (m == n && d < e)))
  {
    PowersOfTen();
    FieldsOrder(Padded(y, 4), Padded(m, 2), Padded(d, 2), Padded(u, 4), Padded(n, 2), Padded(e, 2));
    PaddedOrder(y, u, 4);
    PaddedOrder(m, n, 2);
    PaddedOrder(d, e, 2);
  }

  /** The string order of date texts is the order of the dates. */
  lemma {:induction false} TextOrder(a: Date, b: Date)
    requires IsDate(a) && IsDate(b)
    ensures Less(DateText(a), DateText(b)) <==> Before(a, b)
  {
    NumbersOrder(a.month / 12, a.month % 12 + 1, a.day, b.month / 12, b.month % 12 + 1, b.day);
    MonthSplits(a.month, b.month);
  }

  lemma {:induction false} MonthSplits(a: nat, b: nat)
    ensures a < b <==> a / 12 < b / 12 || (a / 12 == b / 12 && a % 12 < b % 12)
  {
  }

  lemma {:induction false} AtMostIsNotAfter(a: Date, b: Date)
    requires IsDate(a) && IsDate(b)
    ensures AtMost(DateText(a), DateText(b)) <==> !Before(b, a)
  {
    TextOrder(a, b);
    TextOrder(b, a);
    LessIsTotal(DateText(a), DateText(b));
    if DateText(a) == DateText(b) && Before(b, a) {
      LessIsStrict(DateText(b), DateText(a));
    }
  }

  /**
   The text of the first of a month, as `day(firstOfMonth(…))` gives it: a year before 0 has a sign
   and six digits, and only ten characters are kept.
   */
  function FirstText(month: int): string
    requires month <= LAST_MONTH
  {
    if month >= 0 then DateText(Date(month, 1))
    else "-" + Padded(-(month / 12), 6) + "-" + Padded(month % 12 + 1, 2)
  }

  /** A date before the year 0 sorts before every date since. */
  lemma {:induction false} NegativeYearsSortFirst(d: Date, month: int)
    requires IsDate(d) && month < 0
    ensures !AtMost(DateText(d), FirstText(month))
  {
    PaddedAreDigits(d.month / 12, 4);
    assert DateText(d)[0] == Padded(d.month / 12, 4)[0];
    assert FirstText(month)[0] == '-';
  }

  function Decimal(n: nat): (text: string)
    ensures |text| > 0
  {
    if n < 10 then [Digit(n)] else Decimal(n / 10) + [Digit(n % 10)]
  }

  lemma {:induction false} DecimalIsOneToOne(a: nat, b: nat)
    requires Decimal(a) == Decimal(b)
    ensures a == b
  {
    assert Decimal(a)[|Decimal(a)| - 1] == Digit(a % 10) && Decimal(b)[|Decimal(b)| - 1] == Digit(b % 10);
    if a >= 10 && b >= 10 {
      assert Decimal(a / 10) == Decimal(a)[..|Decimal(a)| - 1];
      assert Decimal(b / 10) == Decimal(b)[..|Decimal(b)| - 1];
      DecimalIsOneToOne(a / 10, b / 10);
    }
  }

  function NumberOf(text: string): nat
    requires AreDigits(text)
  {
    if |text| == 0 then 0 else 10 * NumberOf(text[..|text| - 1]) + (text[|text| - 1] as int - '0' as int)
  }

  lemma {:induction false} PaddedReadsBack(n: nat, width: nat)
    requires n < Pow10(width)
    ensures AreDigits(Padded(n, width)) && NumberOf(Padded(n, width)) == n
  {
    PaddedAreDigits(n, width);
    if width > 0 {
      PaddedReadsBack(n / 10, width - 1);
      assert Padded(n, width)[..width - 1] == Padded(n / 10, width - 1);
    }
  }

  predicate IsDateText(text: string) {
    |text| == 10 && AreDigits(text[..4]) && AreDigits(text[5..7]) && AreDigits(text[8..])
  }

  /** A date literal as the database reads it. */
  function DateOf(text: string): Date
    requires IsDateText(text)
  {
    var month := 12 * NumberOf(text[..4]) + NumberOf(text[5..7]) - 1;
    Date(if month < 0 then 0 else month, NumberOf(text[8..]))
  }

  lemma {:induction false} DateReadsBack(d: Date)
    requires IsDate(d)
    ensures IsDateText(DateText(d)) && DateOf(DateText(d)) == d
  {
    var y, m, dd := Padded(d.month / 12, 4), Padded(d.month % 12 + 1, 2), Padded(d.day, 2);
    var text := DateText(d);
    assert text[..4] == y && text[5..7] == m && text[8..] == dd;
    PowersOfTen();
    PaddedReadsBack(d.month / 12, 4);
    PaddedReadsBack(d.month % 12 + 1, 2);
    PaddedReadsBack(d.day, 2);
  }
}
