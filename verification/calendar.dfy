/** Civil dates from the epoch on, and the eight-digit stamps partition names end in. */
module Calendar {
  import opened StringOrder

  datatype Date = Date(year: nat, month: nat, day: nat)

  predicate IsLeap(y: nat) {
    y % 4 == 0 && (y % 100 != 0 || y % 400 == 0)
  }

  function DaysInMonth(y: nat, m: nat): nat {
    if m == 2 then (if IsLeap(y) then 29 else 28)
    else if m == 4 || m == 6 || m == 9 || m == 11 then 30
    else 31
  }

  predicate Valid(d: Date) {
    1 <= d.year && 1 <= d.month <= 12 && 1 <= d.day <= DaysInMonth(d.year, d.month)
  }

  function Next(d: Date): Date {
    if d.day < DaysInMonth(d.year, d.month) then d.(day := d.day + 1)
    else if d.month < 12 then Date(d.year, d.month + 1, 1)
    else Date(d.year + 1, 1, 1)
  }

  const EPOCH := Date(1970, 1, 1)

  /** The date `n` days after the epoch. */
  function DateOf(n: nat): Date {
    if n == 0 then EPOCH else Next(DateOf(n - 1))
  }

  /** How dates compare: by year, then month, then day. */
  predicate Before(a: Date, b: Date) {
    || a.year < b.year
    || (a.year == b.year && a.month < b.month)
    || (a.year == b.year && a.month == b.month && a.day < b.day)
  }

  lemma {:induction false} DateOfValid(n: nat)
    ensures Valid(DateOf(n))
  {
    if n > 0 {
      DateOfValid(n - 1);
    }
  }

  lemma {:induction false} LaterIsAfter(i: nat, j: nat)
    requires i < j
    ensures Before(DateOf(i), DateOf(j))
    decreases j
  {
    DateOfValid(j - 1);
    if i < j - 1 {
      LaterIsAfter(i, j - 1);
    }
  }

  /** Dates are ordered as their days are. */
  lemma {:induction false} DateOrder(i: nat, j: nat)
    ensures Before(DateOf(i), DateOf(j)) <==> i < j
    ensures DateOf(i) == DateOf(j) <==> i == j
  {
    if i < j {
      LaterIsAfter(i, j);
    } else if j < i {
      LaterIsAfter(j, i);
    }
  }

  // ---------------------------------------------------------------- counting days

  /** The leap years from 1970 up to the year before `y`: every fourth, no hundredth, every four-hundredth. */
  function LeapsBefore(y: nat): int
    requires y >= 1
  {
    (y - 1) / 4 - (y - 1) / 100 + (y - 1) / 400 - 477
  }

  /** The days of a common year before each month. */
  const MONTH_STARTS: seq<nat> := [0, 31, 59, 90, 120, 151, 181, 212, 243, 273, 304, 334]

  /** The number of a date, counted from the epoch. */
  function DayNumber(d: Date): int
    requires Valid(d)
  {
    365 * (d.year - 1970) + LeapsBefore(d.year) + MONTH_STARTS[d.month - 1]
    + (if d.month > 2 then LeapsBefore(d.year + 1) - LeapsBefore(d.year) else 0) + d.day - 1
  }

  lemma {:induction false} LeapsStep(y: nat)
    requires y >= 1
    ensures LeapsBefore(y + 1) - LeapsBefore(y) == if IsLeap(y) then 1 else 0
  {
    assert y / 4 - (y - 1) / 4 == if y % 4 == 0 then 1 else 0;
    assert y / 100 - (y - 1) / 100 == if y % 100 == 0 then 1 else 0;
    assert y / 400 - (y - 1) / 400 == if y % 400 == 0 then 1 else 0;
  }

  lemma {:induction false} NextDay(d: Date)
    requires Valid(d)
    ensures Valid(Next(d)) && DayNumber(Next(d)) == DayNumber(d) + 1
  {
    LeapsStep(d.year);
    hide LeapsBefore;
  }

  /** The date `n` days after the epoch is day number `n` of the Gregorian calendar. */
  lemma {:induction false} DayNumberOf(n: nat)
    ensures Valid(DateOf(n)) && DayNumber(DateOf(n)) == n
  {
    if n > 0 {
      DayNumberOf(n - 1);
      NextDay(DateOf(n - 1));
    }
  }

  // ---------------------------------------------------------------- stamps

  function Digit(n: nat): char
    requires n < 10
  {
    ['0', '1', '2', '3', '4', '5', '6', '7', '8', '9'][n]
  }

  predicate IsDigit(c: char) {
    '0' <= c <= '9'
  }

  function DigitValue(c: char): nat
    requires IsDigit(c)
  {
    c as int - '0' as int
  }

  function TwoDigits(n: nat): string
    requires n < 100
  {
    [Digit(n / 10), Digit(n % 10)]
  }

  /** `%Y%m%d` */
  function Stamp(d: Date): string
    requires d.year < 10000 && d.month < 100 && d.day < 100
  {
    TwoDigits(d.year / 100) + TwoDigits(d.year % 100) + TwoDigits(d.month) + TwoDigits(d.day)
  }

  predicate IsStamp(s: string) {
    |s| == 8 && forall i :: 0 <= i < 8 ==> IsDigit(s[i])
  }

  function Two(s: string, i: nat): nat
    requires IsStamp(s) && i < 7
  {
    10 * DigitValue(s[i]) + DigitValue(s[i + 1])
  }

  /** The date a stamp spells; it need not exist. */
  function Spelled(s: string): Date
    requires IsStamp(s)
  {
    Date(100 * Two(s, 0) + Two(s, 2), Two(s, 4), Two(s, 6))
  }

  lemma {:induction false} DigitFacts(n: nat)
    requires n < 10
    ensures IsDigit(Digit(n)) && DigitValue(Digit(n)) == n
  {
  }

  lemma {:induction false} StampRoundTrip(d: Date)
    requires d.year < 10000 && d.month < 100 && d.day < 100
    ensures IsStamp(Stamp(d)) && Spelled(Stamp(d)) == d
  {
    DigitFacts(d.year / 100 / 10); DigitFacts(d.year / 100 % 10);
    DigitFacts(d.year % 100 / 10); DigitFacts(d.year % 100 % 10);
    DigitFacts(d.month / 10); DigitFacts(d.month % 10);
    DigitFacts(d.day / 10); DigitFacts(d.day % 10);
    hide Digit;
  }

  /** Comparing stamps two digits at a time. */
  lemma {:induction false} PairFirst(s: string, t: string, i: nat)
    requires IsStamp(s) && IsStamp(t) && i < 7
    ensures Less(s[i..], t[i..]) <==> Two(s, i) < Two(t, i) || (Two(s, i) == Two(t, i) && Less(s[i + 2..], t[i + 2..]))
    ensures s[i..] == t[i..] <==> Two(s, i) == Two(t, i) && s[i + 2..] == t[i + 2..]
  {
    var a, c := [s[i], s[i + 1]], [t[i], t[i + 1]];
    assert s[i..] == a + s[i + 2..] && t[i..] == c + t[i + 2..];
    LessConcat(a, s[i + 2..], c, t[i + 2..]);
    LessPair(s[i], s[i + 1], t[i], t[i + 1]);
    assert a == c <==> s[i] == t[i] && s[i + 1] == t[i + 1];
    assert a == s[i..][..2] && c == t[i..][..2];
    assert s[i + 2..] == s[i..][2..] && t[i + 2..] == t[i..][2..];
    hide Less;
  }

  /** The string order of eight-digit stamps is the date order, whether or not the dates exist. */
  lemma {:induction false} StampOrder(s: string, t: string)
    requires IsStamp(s) && IsStamp(t)
    ensures Less(s, t) <==> Before(Spelled(s), Spelled(t))
    ensures s == t <==> Spelled(s) == Spelled(t)
  {
    hide Less, Two;
    PairFirst(s, t, 0);
    PairFirst(s, t, 2);
    PairFirst(s, t, 4);
    PairFirst(s, t, 6);
    assert s[0..] == s && t[0..] == t;
    assert s[8..] == [] && t[8..] == [];
    NotLessEmpty();
    TwoBound(s); TwoBound(t);
  }

  lemma {:induction false} NotLessEmpty()
    ensures !Less([], [])
  {
  }

  lemma {:induction false} TwoBound(s: string)
    requires IsStamp(s)
    ensures forall i :: 0 <= i < 7 ==> Two(s, i) < 100
  {
  }

  /** A stamp is what its date is spelled as, whether or not that date exists. */
  lemma {:induction false} SpelledBack(s: string)
    requires IsStamp(s)
    ensures var d := Spelled(s); d.year < 10000 && d.month < 100 && d.day < 100 && Stamp(d) == s
  {
    TwoBound(s);
    StampRoundTrip(Spelled(s));
    StampOrder(s, Stamp(Spelled(s)));
  }
}
