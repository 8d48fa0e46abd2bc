/** The days a date bound may name: those of the Gregorian calendar, as the browser reads
    them. */
module Calendar {
  import opened Wrappers
  import opened Percent

  predicate Digit(c: Byte) {
    '0' <= c <= '9'
  }

  predicate Digits(t: Text) {
    forall i :: 0 <= i < |t| ==> Digit(t[i])
  }

  function Number(t: Text): nat
    requires Digits(t)
  {
    if t == [] then 0 else Number(t[..|t| - 1]) * 10 + (t[|t| - 1] as int - '0' as int)
  }

  predicate DayShape(t: Text) {
    |t| == 10 && t[4] == '-' && t[7] == '-' && Digits(t[..4]) && Digits(t[5..7]) && Digits(t[8..])
  }

  predicate Leap(year: nat) {
    year % 4 == 0 && (year % 100 != 0 || year % 400 == 0)
  }

  function DaysIn(year: nat, month: nat): nat {
    if month == 2 then if Leap(year) then 29 else 28
    else if month in {4, 6, 9, 11} then 30 else 31
  }

  datatype Day = Day(year: nat, month: nat, day: nat)

  /** The calendar day an instant of `day` days into a month falls on: days past the end of
      the month run into the next. None where the reader refuses the text. */
  function Falls(d: Day): Option<Day> {
    if !(1 <= d.month <= 12 && 1 <= d.day <= 31) then None
    else if d.day <= DaysIn(d.year, d.month) then Some(d)
    else Some(Day(d.year, d.month + 1, d.day - DaysIn(d.year, d.month)))
  }

  function DayOf(t: Text): Day
    requires DayShape(t)
  {
    Day(Number(t[..4]), Number(t[5..7]), Number(t[8..]))
  }

  /** A day as the date bounds take it: shaped like one, and the day it names. */
  function ParseDay(value: Option<Text>): Option<Text> {
    if value.None? || !DayShape(value.value) then None
    else if Falls(DayOf(value.value)) != Some(DayOf(value.value)) then None
    else value
  }

  /** Exactly the days of the calendar are read. */
  lemma ParseDayExact(value: Text)
    ensures ParseDay(Some(value)) == Some(value) <==>
      (DayShape(value) && var d := DayOf(value); 1 <= d.month <= 12 && 1 <= d.day <= DaysIn(d.year, d.month))
    ensures ParseDay(Some(value)).Some? ==> ParseDay(Some(value)) == Some(value)
  {
  }

  // ----- The calendar by its day count -----

  /** The days from the first of March of the year 0 to a date: years begin in March, so that
      a leap day ends one, and 153 days make five months. */
  function DayNumber(year: int, month: int, day: int): int {
    var y := if month <= 2 then year - 1 else year;
    365 * y + y / 4 - y / 100 + y / 400 + MonthStart((month + 9) % 12) + day - 1
  }

  /** The days from the first of March to the first of the `k`-th month after. */
  function MonthStart(k: int): int {
    (153 * k + 2) / 5
  }

  lemma MonthStarts()
    ensures MonthStart(0) == 0 && MonthStart(1) == 31 && MonthStart(2) == 61 && MonthStart(3) == 92
    ensures MonthStart(4) == 122 && MonthStart(5) == 153 && MonthStart(6) == 184 && MonthStart(7) == 214
    ensures MonthStart(8) == 245 && MonthStart(9) == 275 && MonthStart(10) == 306 && MonthStart(11) == 337
  {
  }

  /** The first of the next month. */
  function NextMonth(year: nat, month: nat): int {
    if month == 12 then DayNumber(year + 1, 1, 1) else DayNumber(year, month + 1, 1)
  }

  /** A date of the calendar, one before the first of the next month. */
  predicate InCalendar(d: Day) {
    1 <= d.month <= 12 && 1 <= d.day && DayNumber(d.year, d.month, d.day) < NextMonth(d.year, d.month)
  }

  /** The days of a month are those the count passes until the next. */
  lemma MonthLengths(year: nat, month: nat)
    requires 1 <= month <= 12
    ensures DaysIn(year, month) == NextMonth(year, month) - DayNumber(year, month, 1)
  {
    MonthStarts();
    LeapPassed(year);
    hide MonthStart, Leap;
    var k := (month + 9) % 12;
    assert k == if month <= 2 then month + 9 else month - 3;
    if month == 2 {
      FebruaryEnds(year);
    } else if month == 12 {
      assert (1 + 9) % 12 == 10;
    } else {
      assert (month + 1 + 9) % 12 == if month == 1 then 11 else month - 2;
    }
  }

  lemma FebruaryEnds(year: nat)
    ensures DaysIn(year, 2) == DayNumber(year, 3, 1) - DayNumber(year, 2, 1)
  {
    MonthStarts();
    LeapPassed(year);
    hide MonthStart;
    assert (3 + 9) % 12 == 0 && (2 + 9) % 12 == 11;
  }

  lemma LeapPassed(year: nat)
    ensures year / 4 - (year - 1) / 4 == (if year % 4 == 0 then 1 else 0)
    ensures year / 100 - (year - 1) / 100 == (if year % 100 == 0 then 1 else 0)
    ensures year / 400 - (year - 1) / 400 == (if year % 400 == 0 then 1 else 0)
    ensures year % 100 == 0 ==> year % 4 == 0
    ensures year % 400 == 0 ==> year % 100 == 0
  {
    Passed(year, 4);
    Passed(year, 100);
    Passed(year, 400);
    if year % 100 == 0 { Multiple(year, 4, 25 * (year / 100)); }
    if year % 400 == 0 { Multiple(year, 100, 4 * (year / 400)); }
  }

  lemma Multiple(n: nat, k: nat, q: nat)
    requires k > 0 && n == k * q
    ensures n % k == 0
  {
    Quotient(n, k, q, 0);
    assert n == k * (n / k) + n % k;
  }

  /** A multiple is passed when it is reached. */
  lemma Passed(year: nat, k: nat)
    requires k > 1
    ensures year / k - (year - 1) / k == (if year % k == 0 then 1 else 0)
  {
    var q, r := year / k, year % k;
    assert year == k * q + r;
    if r == 0 {
      Quotient(year - 1, k, q - 1, k - 1);
    } else {
      Quotient(year - 1, k, q, r - 1);
    }
  }

  lemma Quotient(n: int, k: nat, q: int, r: nat)
    requires k > 0 && n == k * q + r && r < k
    ensures n / k == q
  {
    var d := n / k;
    assert k * d <= n < k * d + k;
    assert k * (q - d - 1) == k * q - k * d - k && k * (d - q - 1) == k * d - k * q - k;
    Negative(k, q - d - 1);
    Negative(k, d - q - 1);
  }

  lemma Negative(k: nat, d: int)
    requires k * d < 0
    ensures d < 0
  {
  }

  function DigitOf(n: nat): Byte
    requires n < 10
  {
    ('0' as int + n) as char
  }

  /** A date written out: four digits, two and two. */
  function Iso(d: Day): Text
    requires d.year < 10000 && d.month < 100 && d.day < 100
  {
    [DigitOf(d.year / 10 / 10 / 10), DigitOf(d.year / 10 / 10 % 10), DigitOf(d.year / 10 % 10), DigitOf(d.year % 10),
     '-', DigitOf(d.month / 10), DigitOf(d.month % 10), '-', DigitOf(d.day / 10), DigitOf(d.day % 10)]
  }

  /** `t` is a date written out. */
  predicate Writes(d: Day, t: Text) {
    d.year < 10000 && d.month < 100 && d.day < 100 && t == Iso(d)
  }

  function DigitValue(c: Byte): nat
    requires Digit(c)
  {
    c as int - '0' as int
  }

  lemma NumberTwo(t: Text)
    requires |t| == 2 && Digits(t)
    ensures Number(t) == 10 * DigitValue(t[0]) + DigitValue(t[1])
  {
    assert t[..1] == [t[0]] && t[..1][..0] == [];
    assert Number(t[..1]) == DigitValue(t[0]);
  }

  lemma NumberFour(t: Text)
    requires |t| == 4 && Digits(t)
    ensures Number(t) == 1000 * DigitValue(t[0]) + 100 * DigitValue(t[1]) + 10 * DigitValue(t[2]) + DigitValue(t[3])
  {
    var three := t[..3];
    assert three[..2] == t[..2];
    NumberTwo(t[..2]);
    assert Number(three) == 10 * Number(t[..2]) + DigitValue(t[2]);
  }

  lemma ValueBack(n: nat)
    requires n < 10
    ensures Digit(DigitOf(n)) && DigitValue(DigitOf(n)) == n
  {
  }

  lemma TwoDigits(n: nat)
    requires n < 100
    ensures 10 * DigitValue(DigitOf(n / 10)) + DigitValue(DigitOf(n % 10)) == n
  {
    hide DigitValue, DigitOf;
    ValueBack(n / 10);
    ValueBack(n % 10);
  }

  lemma FourDigits(n: nat)
    requires n < 10000
    ensures n / 10 / 10 / 10 < 10
    ensures 1000 * DigitValue(DigitOf(n / 10 / 10 / 10)) + 100 * DigitValue(DigitOf(n / 10 / 10 % 10))
            + 10 * DigitValue(DigitOf(n / 10 % 10)) + DigitValue(DigitOf(n % 10)) == n
  {
    hide DigitValue, DigitOf;
    var a := n / 10;
    var b := a / 10;
    var c := b / 10;
    ValueBack(n % 10);
    ValueBack(a % 10);
    ValueBack(b % 10);
    ValueBack(c);
  }

  /** A written date is read back. */
  lemma WrittenRead(d: Day, t: Text)
    requires Writes(d, t)
    ensures DayShape(t) && DayOf(t) == d
  {
    hide Number, DigitOf;
    var year, month, day := t[..4], t[5..7], t[8..];
    FourDigits(d.year);
    TwoDigits(d.month);
    TwoDigits(d.day);
    DigitsWritten(d, t);
    NumberFour(year);
    NumberTwo(month);
    NumberTwo(day);
  }

  lemma DigitsWritten(d: Day, t: Text)
    requires Writes(d, t)
    ensures DayShape(t)
  {
  }

  lemma DigitBack(c: Byte)
    requires Digit(c)
    ensures DigitValue(c) < 10 && DigitOf(DigitValue(c)) == c
  {
  }

  lemma ShapedDigits(t: Text)
    requires DayShape(t)
    ensures forall i :: 0 <= i < 10 && i != 4 && i != 7 ==>
      Digit(t[i]) && DigitValue(t[i]) < 10 && DigitOf(DigitValue(t[i])) == t[i]
  {
    var year, month, day := t[..4], t[5..7], t[8..];
    hide DigitOf;
    forall i | 0 <= i < 10 && i != 4 && i != 7
      ensures Digit(t[i]) && DigitValue(t[i]) < 10 && DigitOf(DigitValue(t[i])) == t[i]
    {
      assert t[i] == if i < 4 then year[i] else if i < 7 then month[i - 5] else day[i - 8];
      DigitBack(t[i]);
    }
  }

  lemma ShapedNumbers(t: Text)
    requires DayShape(t) && forall i :: 0 <= i < 10 && i != 4 && i != 7 ==> Digit(t[i])
    ensures DayOf(t) == Day(1000 * DigitValue(t[0]) + 100 * DigitValue(t[1]) + 10 * DigitValue(t[2]) + DigitValue(t[3]),
                            10 * DigitValue(t[5]) + DigitValue(t[6]), 10 * DigitValue(t[8]) + DigitValue(t[9]))
  {
    hide Number, DigitValue;
    NumberFour(t[..4]);
    NumberTwo(t[5..7]);
    NumberTwo(t[8..]);
  }

  /** A text of the shape of a date is the date it reads as, written out. */
  lemma ShapedWritten(t: Text)
    requires DayShape(t)
    ensures Writes(DayOf(t), t)
  {
    assert |t| == 10 && t[4] == '-' && t[7] == '-';
    ShapedDigits(t);
    ShapedNumbers(t);
    hide DayShape, DayOf, DigitOf, Digit, DigitValue;
    IsoOf(DigitValue(t[0]), DigitValue(t[1]), DigitValue(t[2]), DigitValue(t[3]), DigitValue(t[5]), DigitValue(t[6]),
          DigitValue(t[8]), DigitValue(t[9]));
  }

  lemma IsoOf(a: nat, b: nat, c: nat, d: nat, e: nat, f: nat, g: nat, h: nat)
    requires a < 10 && b < 10 && c < 10 && d < 10 && e < 10 && f < 10 && g < 10 && h < 10
    ensures var day := Day(1000 * a + 100 * b + 10 * c + d, 10 * e + f, 10 * g + h);
            day.year < 10000 && day.month < 100 && day.day < 100 &&
            Iso(day) == [DigitOf(a), DigitOf(b), DigitOf(c), DigitOf(d), '-', DigitOf(e), DigitOf(f), '-', DigitOf(g),
                         DigitOf(h)]
  {
    hide DigitOf;
    FourBack(a, b, c, d);
    LastDigit(e, f);
    LastDigit(g, h);
  }

  lemma FourBack(a: nat, b: nat, c: nat, d: nat)
    requires a < 10 && b < 10 && c < 10 && d < 10
    ensures var n := 1000 * a + 100 * b + 10 * c + d;
            n / 10 / 10 / 10 == a && n / 10 / 10 % 10 == b && n / 10 % 10 == c && n % 10 == d
  {
    var p := 10 * a + b;
    var q := 10 * p + c;
    var n := 10 * q + d;
    LastDigit(q, d);
    LastDigit(p, c);
    LastDigit(a, b);
    assert n == 1000 * a + 100 * b + 10 * c + d;
  }

  lemma LastDigit(q: nat, d: nat)
    requires d < 10
    ensures (10 * q + d) / 10 == q && (10 * q + d) % 10 == d
  {
  }

  /** A bound is read exactly when it is a date of the calendar, written as four digits, two and
      two. */
  lemma DaysRead(t: Text)
    ensures ParseDay(Some(t)) == Some(t) <==> exists d :: Writes(d, t) && InCalendar(d)
    ensures ParseDay(Some(t)).Some? ==> ParseDay(Some(t)) == Some(t)
    ensures ParseDay(None) == None
  {
    hide DayShape, DaysIn, DayNumber, Iso, DayOf;
    ParseDayExact(t);
    if DayShape(t) {
      var d := DayOf(t);
      ShapedWritten(t);
      if 1 <= d.month <= 12 { DatesOfMonth(d); }
      assert InCalendar(d) <==> 1 <= d.month <= 12 && 1 <= d.day <= DaysIn(d.year, d.month);
    }
    forall d | Writes(d, t)
      ensures DayShape(t) && DayOf(t) == d
    {
      WrittenRead(d, t);
    }
  }

  lemma DatesOfMonth(d: Day)
    requires 1 <= d.month <= 12
    ensures DayNumber(d.year, d.month, d.day) < NextMonth(d.year, d.month) <==> d.day <= DaysIn(d.year, d.month)
  {
    hide DaysIn, NextMonth;
    MonthLengths(d.year, d.month);
  }
}
