/**
 * Months, days and instants. A month is the integer 12 * year + (0 for January .. 11), a day counts from
 * 1970-01-01, an instant counts milliseconds from its UTC midnight, 86 400 000 to a day. Asuncion is UTC-3 all year,
 * which is 10 800 000 ms.
 */
module Calendar {

  type Month = int
  type Day = int
  type Instant = int

  const EPOCH_MONTH: Month := 12 * 1970
  const MAX_MONTHS := 240

  function IsLeap(year: int): bool {
    year % 4 == 0 && (year % 100 != 0 || year % 400 == 0)
  }

  function MonthLength(k: Month): int
    ensures 28 <= MonthLength(k) <= 31
  {
    var m := k % 12;
    if m == 1 then (if IsLeap(k / 12) then 29 else 28)
    else if m == 3 || m == 5 || m == 8 || m == 10 then 30
    else 31
  }

  /** The first day of a month, counting the months from January 1970 in either direction. */
  function MonthStart(k: Month): Day
    decreases if k < EPOCH_MONTH then EPOCH_MONTH - k else k - EPOCH_MONTH
  {
    if k == EPOCH_MONTH then 0
    else if k > EPOCH_MONTH then MonthStart(k - 1) + MonthLength(k - 1)
    else MonthStart(k + 1) - MonthLength(k)
  }

  lemma MonthsAreConsecutive(k: Month)
    ensures MonthStart(k + 1) == MonthStart(k) + MonthLength(k)
  {
  }

  lemma {:induction false} MonthStartIsMonotone(a: Month, b: Month)
    requires a <= b
    ensures MonthStart(a) + 28 * (b - a) <= MonthStart(b)
    decreases b - a
  {
    if a < b {
      MonthStartIsMonotone(a, b - 1);
      MonthsAreConsecutive(b - 1);
    }
  }

  // ---------------------------------------------------------------- the dates of the Gregorian calendar

  /** The leap years from year 1 up to a year: every fourth, but of the centuries only every fourth. */
  function LeapYears(year: int): int {
    year / 4 - year / 100 + year / 400
  }

  /** One multiple more exactly at a multiple. */
  lemma MultiplesCount(n: int)
    ensures n / 4 - (n - 1) / 4 == if n % 4 == 0 then 1 else 0
    ensures n / 100 - (n - 1) / 100 == if n % 100 == 0 then 1 else 0
    ensures n / 400 - (n - 1) / 400 == if n % 400 == 0 then 1 else 0
  {
  }

  lemma MultiplesNest(n: int)
    ensures n % 100 == 0 ==> n % 4 == 0
    ensures n % 400 == 0 ==> n % 100 == 0
  {
  }

  lemma LeapYearsCount(year: int)
    ensures LeapYears(year) - LeapYears(year - 1) == if IsLeap(year) then 1 else 0
  {
    MultiplesCount(year);
    MultiplesNest(year);
  }

  /** The days of an ordinary year before a month of it. */
  function DaysBefore(m: int): int
    requires 0 <= m < 12
  {
    [0, 31, 59, 90, 120, 151, 181, 212, 243, 273, 304, 334][m]
  }

  /** The day of the first of a month, counted over the years: 365 days each and one more for each leap year. */
  function FirstOf(year: int, m: int): Day
    requires 0 <= m < 12
  {
    365 * (year - 1970) + LeapYears(year - 1) - LeapYears(1969)
    + DaysBefore(m) + (if IsLeap(year) && m >= 2 then 1 else 0)
  }

  lemma LengthOf(year: int, m: int)
    requires 0 <= m < 12
    ensures MonthLength(12 * year + m) ==
      if m == 1 then (if IsLeap(year) then 29 else 28) else if m == 3 || m == 5 || m == 8 || m == 10 then 30 else 31
  {
    assert (12 * year + m) / 12 == year && (12 * year + m) % 12 == m;
  }

  lemma FirstsFollow(year: int, m: int)
    requires 0 <= m < 12
    ensures m < 11 ==> FirstOf(year, m + 1) == FirstOf(year, m) + MonthLength(12 * year + m)
    ensures m == 11 ==> FirstOf(year + 1, 0) == FirstOf(year, 11) + MonthLength(12 * year + 11)
  {
    LengthOf(year, m);
    LeapYearsCount(year);
  }

  /** A month of a year starts on its date. */
  predicate OnItsDate(year: int, m: int) {
    0 <= m < 12 && MonthStart(12 * year + m) == FirstOf(year, m)
  }

  lemma DatesFollow(year: int, m: int)
    requires 0 <= m < 12
    ensures OnItsDate(year, m) <==> if m < 11 then OnItsDate(year, m + 1) else OnItsDate(year + 1, 0)
  {
    FirstsFollow(year, m);
    MonthsAreConsecutive(12 * year + m);
    assert 12 * (year + 1) == 12 * year + 11 + 1;
  }

  /** Every month starts on its date. */
  lemma {:induction false} MonthsStartOnTheirDates(year: int, m: int)
    requires 0 <= m < 12
    ensures OnItsDate(year, m)
    decreases if year < 1970 then 12 * (1970 - year) - m else 12 * (year - 1970) + m
  {
    if year < 1970 {
      DatesFollow(year, m);
      if m < 11 {
        MonthsStartOnTheirDates(year, m + 1);
      } else {
        MonthsStartOnTheirDates(year + 1, 0);
      }
    } else if m > 0 {
      DatesFollow(year, m - 1);
      MonthsStartOnTheirDates(year, m - 1);
    } else if year > 1970 {
      DatesFollow(year - 1, 11);
      MonthsStartOnTheirDates(year - 1, 11);
    }
  }

  // ---------------------------------------------------------------- days, months and instants

  /** The month that contains a day. */
  function MonthOf(d: Day): (k: Month)
    ensures MonthStart(k) <= d < MonthStart(k + 1)
  {
    if d < MonthStart(EPOCH_MONTH) then SearchBack(d, EPOCH_MONTH) else SearchForth(d, EPOCH_MONTH)
  }

  function SearchBack(d: Day, k: Month): (r: Month)
    requires d < MonthStart(k)
    ensures MonthStart(r) <= d < MonthStart(r + 1)
    decreases MonthStart(k) - d
  {
    MonthsAreConsecutive(k - 1);
    if MonthStart(k - 1) <= d then k - 1 else SearchBack(d, k - 1)
  }

  function SearchForth(d: Day, k: Month): (r: Month)
    requires MonthStart(k) <= d
    ensures MonthStart(r) <= d < MonthStart(r + 1)
    decreases d - MonthStart(k)
  {
    MonthsAreConsecutive(k);
    if d < MonthStart(k + 1) then k else SearchForth(d, k + 1)
  }

  lemma MonthOfIsUnique(d: Day, k: Month)
    ensures MonthOf(d) == k <==> MonthStart(k) <= d < MonthStart(k + 1)
  {
    var r := MonthOf(d);
    if r < k {
      MonthStartIsMonotone(r + 1, k);
    } else if k < r {
      MonthStartIsMonotone(k + 1, r);
    }
  }

  lemma MonthOfIsMonotone(a: Day, b: Day)
    requires a <= b
    ensures MonthOf(a) <= MonthOf(b)
  {
    if MonthOf(b) < MonthOf(a) {
      MonthStartIsMonotone(MonthOf(b) + 1, MonthOf(a));
    }
  }

  /** The calendar day of an instant in Asuncion. */
  function LocalDay(t: Instant): Day {
    (t - 10_800_000) / 86_400_000
  }

  /** The month an instant falls in, read in Asuncion. */
  function LocalMonth(t: Instant): Month {
    MonthOf(LocalDay(t))
  }

  /** A day in Asuncion lasts the 24 hours from three hours after its UTC midnight. */
  lemma LocalDayLasts(t: Instant, d: Day)
    ensures LocalDay(t) == d <==> 24 * 3_600_000 * d <= t - 3 * 3_600_000 < 24 * 3_600_000 * (d + 1)
  {
  }

  lemma LocalDayIsMonotone(a: Instant, b: Instant)
    ensures a <= b ==> LocalDay(a) <= LocalDay(b)
    ensures b <= a ==> LocalDay(b) <= LocalDay(a)
  {
  }

  /** Midnight in Asuncion of the first day of a month. */
  function MonthInstant(k: Month): Instant {
    MonthStart(k) * 86_400_000 + 10_800_000
  }

  datatype Bounds = Bounds(start: Instant, end: Instant)

  function PeriodBounds(k: Month): Bounds {
    Bounds(MonthInstant(k), MonthInstant(k + 1) - 1)
  }

  /** The last instant of a period falls on the day before the next month. */
  lemma PeriodEndsOnItsLastDay(k: Month)
    ensures LocalDay(PeriodBounds(k).end) == MonthStart(k + 1) - 1
  {
  }

  /** A period holds exactly the instants whose Asuncion month it is. */
  lemma PeriodHoldsItsMonth(k: Month, t: Instant)
    ensures PeriodBounds(k).start <= t <= PeriodBounds(k).end <==> LocalMonth(t) == k
  {
    MonthOfIsUnique(LocalDay(t), k);
  }

  /**
   * A working day is stored as its UTC midnight. Its month by UTC parts is the month of the day; the Asuncion month of
   * that same instant is the previous one exactly on the first day of a month.
   */
  lemma UtcPartsAreNeeded(d: Day)
    ensures LocalMonth(d * 86_400_000) == (if d == MonthStart(MonthOf(d)) then MonthOf(d) - 1 else MonthOf(d))
  {
    var k := MonthOf(d);
    assert LocalDay(d * 86_400_000) == d - 1;
    MonthsAreConsecutive(k - 1);
    MonthOfIsUnique(d - 1, if d == MonthStart(k) then k - 1 else k);
  }

  /** The months a cycle closes, as a range: the start month and its successors up to the end month, at most 240. */
  predicate Covers(start: Month, end: Month, k: Month) {
    start <= k <= (if end < start then start else end) && k < start + MAX_MONTHS
  }

  /** The 'YYYY-MM' key of a month, as the pair that the text spells out. */
  datatype Key = Key(year: int, month: int)

  function KeyOf(k: Month): Key {
    Key(k / 12, k % 12 + 1)
  }

  predicate KeyAtLeast(a: Key, b: Key) {
    a.year > b.year || (a.year == b.year && a.month >= b.month)
  }

  /** The walk from the start month to the end month lists the months that `Covers` names, once each, in order. */
  method MonthKeysInRange(start: Instant, end: Instant) returns (keys: seq<Key>)
    ensures 0 < |keys| <= MAX_MONTHS
    ensures forall i :: 0 <= i < |keys| ==> keys[i] == KeyOf(LocalMonth(start) + i)
    ensures forall k ::
      Covers(LocalMonth(start), LocalMonth(end), k) <==> LocalMonth(start) <= k < LocalMonth(start) + |keys|
  {
    keys := [];
    var first := KeyOf(LocalMonth(start));
    var y, m := first.year, first.month;
    var endKey := KeyOf(LocalMonth(end));
    var i := 0;
    while i < MAX_MONTHS
      invariant 0 <= i <= MAX_MONTHS && |keys| == i
      invariant Key(y, m) == KeyOf(LocalMonth(start) + i)
      invariant forall j :: 0 <= j < i ==> keys[j] == KeyOf(LocalMonth(start) + j)
      invariant i > 0 ==> LocalMonth(start) + i <= LocalMonth(end)
    {
      var key := Key(y, m);
      keys := keys + [key];
      if KeyAtLeast(key, endKey) {
        return;
      }
      m := m + 1;
      if m > 12 {
        m := 1;
        y := y + 1;
      }
      i := i + 1;
    }
  }
}
