/** UTC timestamps of the two checkers as nanoseconds, from their parsed fields. */
module Timestamps {
  import opened Sequences

  /** Calendar fields and up to nine decimal digits of a second. */
  datatype Stamp = Stamp(
    year: nat, month: nat, day: nat, hour: nat, minute: nat, second: nat, fraction: seq<nat>)

  predicate IsLeap(y: nat) { y % 4 == 0 && (y % 100 != 0 || y % 400 == 0) }

  function DaysIn(y: nat, month: nat): nat {
    if month == 2 then if IsLeap(y) then 29 else 28
    else if month == 4 || month == 6 || month == 9 || month == 11 then 30 else 31
  }

  function DaysBeforeMonth(y: nat, month: nat): nat
    requires 1 <= month
  {
    if month == 1 then 0 else DaysBeforeMonth(y, month - 1) + DaysIn(y, month - 1)
  }

  /** Days of all years before `y`. */
  function DaysBeforeYear(y: nat): int
    requires 1 <= y
  {
    var p := y - 1;
    p * 365 + p / 4 - p / 100 + p / 400
  }

  function YearLength(y: nat): nat { if IsLeap(y) then 366 else 365 }

  /** `date.toordinal`: 1 January of year 1 is day 1. */
  function Ordinal(y: nat, month: nat, day: nat): int
    requires 1 <= y && 1 <= month
  {
    DaysBeforeYear(y) + DaysBeforeMonth(y, month) + day
  }

  predicate Digits(fraction: seq<nat>) {
    |fraction| <= 9 && forall i :: 0 <= i < |fraction| ==> fraction[i] < 10
  }

  /** What the calendar library accepts. */
  predicate Valid(s: Stamp) {
    && 1 <= s.year <= 9999 && 1 <= s.month <= 12 && 1 <= s.day <= DaysIn(s.year, s.month)
    && s.hour < 24 && s.minute < 60 && s.second < 60 && Digits(s.fraction)
  }

  function Pow10(n: nat): (p: nat)
    ensures 0 < p
  {
    if n == 0 then 1 else 10 * Pow10(n - 1)
  }

  function DigitsValue(digits: seq<nat>): nat {
    if digits == [] then 0 else 10 * DigitsValue(DropLast(digits)) + Last(digits)
  }

  /** The number with `zeros` more zeros behind it. */
  function Padded(n: nat, zeros: nat): nat
    decreases zeros
  {
    if zeros == 0 then n else Padded(10 * n, zeros - 1)
  }

  /** `int(fraction.ljust(9, "0"))`. */
  function FractionNs(fraction: seq<nat>): nat
    requires Digits(fraction)
  {
    Padded(DigitsValue(fraction), 9 - |fraction|)
  }

  function SecondOfDay(s: Stamp): nat { s.hour * 3600 + s.minute * 60 + s.second }

  function Nanoseconds(days: int, second: int, ns: int): int { (days * 86400 + second) * 1000000000 + ns }

  /** `_docker_timestamp_ns`: nanoseconds since 1 January of year 1. */
  function DockerNs(s: Stamp): int
    requires Valid(s)
  {
    Nanoseconds(Ordinal(s.year, s.month, s.day) - 1, SecondOfDay(s), FractionNs(s.fraction))
  }

  const EpochOrdinal := 719163

  /** `_runner_timestamp_ns`: nanoseconds since 1970; the zero time is refused. */
  function RunnerNs(s: Stamp): Option<int>
    requires Valid(s)
  {
    if s == Stamp(1, 1, 1, 0, 0, 0, []) then None
    else Some(Nanoseconds(Ordinal(s.year, s.month, s.day) - EpochOrdinal, SecondOfDay(s), FractionNs(s.fraction)))
  }

  // ----- days follow the calendar ----------------------------------------------------

  lemma {:induction false} Fours(y: nat)
    requires 1 <= y
    ensures y / 4 == (y - 1) / 4 + if y % 4 == 0 then 1 else 0
  {
  }

  lemma {:induction false} Hundreds(y: nat)
    requires 1 <= y
    ensures y / 100 == (y - 1) / 100 + if y % 100 == 0 then 1 else 0
  {
  }

  lemma {:induction false} FourHundreds(y: nat)
    requires 1 <= y
    ensures y / 400 == (y - 1) / 400 + if y % 400 == 0 then 1 else 0
  {
  }

  lemma {:induction false} Hundredfold(q: nat)
    ensures (100 * q) % 100 == 0
  {
  }

  lemma {:induction false} Fourfold(q: nat)
    ensures (4 * q) % 4 == 0
  {
  }

  lemma {:induction false} Multiples(y: nat)
    ensures y % 400 == 0 ==> y % 100 == 0
    ensures y % 100 == 0 ==> y % 4 == 0
  {
    if y % 400 == 0 {
      Hundredfold(4 * (y / 400));
      assert y == 100 * (4 * (y / 400));
    }
    if y % 100 == 0 {
      Fourfold(25 * (y / 100));
      assert y == 4 * (25 * (y / 100));
    }
  }

  lemma {:induction false} NextYear(y: nat)
    requires 1 <= y
    ensures DaysBeforeYear(y + 1) == DaysBeforeYear(y) + YearLength(y)
  {
    Fours(y);
    Hundreds(y);
    FourHundreds(y);
    Multiples(y);
  }

  lemma {:induction false} LaterYear(y: nat, z: nat)
    requires 1 <= y < z
    ensures DaysBeforeYear(y) + YearLength(y) <= DaysBeforeYear(z)
  {
    NextYear(z - 1);
    if y < z - 1 { LaterYear(y, z - 1); }
  }

  lemma {:induction false} LaterMonth(y: nat, m: nat, n: nat)
    requires 1 <= m < n
    ensures DaysBeforeMonth(y, m) + DaysIn(y, m) <= DaysBeforeMonth(y, n)
  {
    if m < n - 1 { LaterMonth(y, m, n - 1); }
  }

  lemma {:induction false} MonthsFillYear(y: nat)
    ensures DaysBeforeMonth(y, 12) + DaysIn(y, 12) == YearLength(y)
  {
    var february := DaysIn(y, 2);
    assert DaysBeforeMonth(y, 2) == 31;
    assert DaysBeforeMonth(y, 3) == 31 + february;
    assert DaysBeforeMonth(y, 5) == 92 + february;
    assert DaysBeforeMonth(y, 7) == 153 + february;
    assert DaysBeforeMonth(y, 9) == 215 + february;
    assert DaysBeforeMonth(y, 11) == 276 + february;
  }

  lemma {:induction false} DayInYear(s: Stamp)
    requires Valid(s)
    ensures 1 <= DaysBeforeMonth(s.year, s.month) + s.day <= YearLength(s.year)
  {
    MonthsFillYear(s.year);
    if s.month < 12 { LaterMonth(s.year, s.month, 12); }
  }

  /** Calendar order of two dates. */
  predicate DateBefore(a: Stamp, b: Stamp) {
    a.year < b.year || (a.year == b.year && (a.month < b.month || (a.month == b.month && a.day < b.day)))
  }

  lemma {:induction false} OrdinalKeepsDates(a: Stamp, b: Stamp)
    requires Valid(a) && Valid(b) && DateBefore(a, b)
    ensures Ordinal(a.year, a.month, a.day) < Ordinal(b.year, b.month, b.day)
  {
    DayInYear(a);
    DayInYear(b);
    if a.year < b.year {
      LaterYear(a.year, b.year);
    } else if a.month < b.month {
      LaterMonth(a.year, a.month, b.month);
    }
  }

  lemma {:induction false} DigitsBound(digits: seq<nat>)
    requires forall i :: 0 <= i < |digits| ==> digits[i] < 10
    ensures DigitsValue(digits) < Pow10(|digits|)
  {
    if digits != [] { DigitsBound(DropLast(digits)); }
  }

  lemma {:induction false} PaddedBound(n: nat, width: nat, zeros: nat)
    requires n < Pow10(width)
    ensures Padded(n, zeros) < Pow10(width + zeros)
    decreases zeros
  {
    if zeros != 0 { PaddedBound(10 * n, width + 1, zeros - 1); }
  }

  lemma {:induction false} FractionBound(fraction: seq<nat>)
    requires Digits(fraction)
    ensures FractionNs(fraction) < 1000000000
  {
    DigitsBound(fraction);
    PaddedBound(DigitsValue(fraction), |fraction|, 9 - |fraction|);
    assert Pow10(3) == 1000 && Pow10(6) == 1000000 && Pow10(9) == 1000000000;
  }

  // ----- what the checkers rely on ------------------------------------------------------

  /** Order of the calendar fields, then of the clock, then of the fraction. */
  predicate Earlier(a: Stamp, b: Stamp)
    requires Digits(a.fraction) && Digits(b.fraction)
  {
    || DateBefore(a, b)
    || (!DateBefore(b, a)
        && (|| SecondOfDay(a) < SecondOfDay(b)
            || (SecondOfDay(a) == SecondOfDay(b) && FractionNs(a.fraction) < FractionNs(b.fraction))))
  }

  lemma {:induction false} EarlierIsLess(a: Stamp, b: Stamp)
    requires Valid(a) && Valid(b) && Earlier(a, b)
    ensures DockerNs(a) < DockerNs(b)
  {
    FractionBound(a.fraction);
    FractionBound(b.fraction);
    if DateBefore(a, b) { OrdinalKeepsDates(a, b); }
  }

  /** Nanoseconds order timestamps exactly as calendar and clock do. */
  lemma {:induction false} TimestampsKeepOrder(a: Stamp, b: Stamp)
    requires Valid(a) && Valid(b)
    ensures DockerNs(a) < DockerNs(b) <==> Earlier(a, b)
  {
    if Earlier(a, b) {
      EarlierIsLess(a, b);
    } else if Earlier(b, a) {
      EarlierIsLess(b, a);
    }
  }

  const Epoch := Stamp(1970, 1, 1, 0, 0, 0, [])
  const EpochNanoseconds: int := Nanoseconds(EpochOrdinal - 1, 0, 0)

  /** The constant is the first checker's reading of 1 January 1970. */
  lemma {:induction false} EpochIsItsReading()
    ensures Valid(Epoch) && DockerNs(Epoch) == EpochNanoseconds
  {
    assert Ordinal(1970, 1, 1) == EpochOrdinal;
    NoFraction(Epoch.fraction);
  }

  lemma {:induction false} NoFraction(fraction: seq<nat>)
    requires fraction == []
    ensures FractionNs(fraction) == 0
  {
    PaddedZero(9);
  }

  lemma {:induction false} PaddedZero(zeros: nat)
    ensures Padded(0, zeros) == 0
  {
    if zeros != 0 { PaddedZero(zeros - 1); }
  }

  /** The two checkers' clocks differ by a constant, so spans and orders agree. */
  lemma {:induction false} RunnerIsDockerShifted(s: Stamp)
    requires Valid(s) && RunnerNs(s).Some?
    ensures RunnerNs(s).value == DockerNs(s) - EpochNanoseconds
  {
  }

  // ----- the clock, unit by unit -----------------------------------------------------------

  /** The runner refuses the zero time and nothing else. */
  lemma {:induction false} OnlyZeroTimeRefused(s: Stamp)
    requires Valid(s)
    ensures RunnerNs(s).None? <==>
            && s.year == 1 && s.month == 1 && s.day == 1 && s.hour == 0 && s.minute == 0 && s.second == 0
            && s.fraction == []
  {
  }

  /** The clock counts from 1 January of year 1. */
  lemma {:induction false} ClockStartsAtZero(s: Stamp)
    requires Valid(s) && s.year == 1 && s.month == 1 && s.day == 1 && s.hour == 0 && s.minute == 0 && s.second == 0
    ensures s.fraction == [] ==> DockerNs(s) == 0
  {
    if s.fraction == [] { NoFraction(s.fraction); }
  }

  /** A second, a minute and an hour more. */
  lemma {:induction false} ClockSteps(s: Stamp)
    requires Valid(s)
    ensures s.second < 59 ==> DockerNs(s.(second := s.second + 1)) == DockerNs(s) + 1000000000
    ensures s.minute < 59 ==> DockerNs(s.(minute := s.minute + 1)) == DockerNs(s) + 60 * 1000000000
    ensures s.hour < 23 ==> DockerNs(s.(hour := s.hour + 1)) == DockerNs(s) + 3600 * 1000000000
  {
  }

  /** The months' lengths. */
  lemma {:induction false} MonthLengths(y: nat, month: nat)
    requires 1 <= month <= 12
    ensures var february := if (y % 4 == 0 && y % 100 != 0) || y % 400 == 0 then 29 else 28;
            DaysIn(y, month) == [31, february, 31, 30, 31, 30, 31, 31, 30, 31, 30, 31][month - 1]
  {
    Multiples(y);
  }

  /** The day after, over the end of a month and of a year. */
  lemma {:induction false} CalendarSteps(s: Stamp)
    requires Valid(s)
    ensures s.day < DaysIn(s.year, s.month) ==> DockerNs(s.(day := s.day + 1)) == DockerNs(s) + 86400 * 1000000000
    ensures s.day == DaysIn(s.year, s.month) && s.month < 12 ==>
              var t := s.(month := s.month + 1, day := 1);
              Valid(t) && DockerNs(t) == DockerNs(s) + 86400 * 1000000000
    ensures s.day == DaysIn(s.year, s.month) && s.month == 12 && s.year < 9999 ==>
              var t := s.(year := s.year + 1, month := 1, day := 1);
              Valid(t) && DockerNs(t) == DockerNs(s) + 86400 * 1000000000
  {
    if s.day == DaysIn(s.year, s.month) && s.month == 12 {
      NextYear(s.year);
      MonthsFillYear(s.year);
    }
  }

  /** Trailing zeros of a fraction say nothing. */
  lemma {:induction false} TrailingZero(fraction: seq<nat>)
    requires |fraction| < 9 && forall i :: 0 <= i < |fraction| ==> fraction[i] < 10
    ensures FractionNs(fraction + [0]) == FractionNs(fraction)
  {
    assert DropLast(fraction + [0]) == fraction;
  }

  lemma {:induction false} DigitsSnoc(digits: seq<nat>, d: nat)
    ensures DigitsValue(digits + [d]) == 10 * DigitsValue(digits) + d
  {
    assert DropLast(digits + [d]) == digits;
  }

  lemma {:induction false} ThreeDigits(front: seq<nat>, a: nat, b: nat, c: nat)
    ensures DigitsValue(front + [a, b, c]) == 1000 * DigitsValue(front) + 100 * a + 10 * b + c
  {
    DigitsSnoc(front, a);
    DigitsSnoc(front + [a], b);
    DigitsSnoc(front + [a] + [b], c);
    assert front + [a] + [b] + [c] == front + [a, b, c];
  }

  /** Nine digits are milli-, micro- and nanoseconds. */
  lemma {:induction false} NineDigits(f: seq<nat>)
    requires |f| == 9 && forall i :: 0 <= i < |f| ==> f[i] < 10
    ensures FractionNs(f) == 1000000 * (100 * f[0] + 10 * f[1] + f[2]) + 1000 * (100 * f[3] + 10 * f[4] + f[5])
                             + (100 * f[6] + 10 * f[7] + f[8])
  {
    ThreeDigits([], f[0], f[1], f[2]);
    ThreeDigits([f[0], f[1], f[2]], f[3], f[4], f[5]);
    ThreeDigits([f[0], f[1], f[2], f[3], f[4], f[5]], f[6], f[7], f[8]);
    assert [] + [f[0], f[1], f[2]] == [f[0], f[1], f[2]];
    assert [f[0], f[1], f[2]] + [f[3], f[4], f[5]] == [f[0], f[1], f[2], f[3], f[4], f[5]];
    assert [f[0], f[1], f[2], f[3], f[4], f[5]] + [f[6], f[7], f[8]] == f;
  }
}
