/**
  The dashboard's seven-day window. The client builds it from the clock:
  for i in 0..6 it steps back 6 - i days from today and keeps the date part
  of the ISO 8601 timestamp (`YYYY-MM-DD`). Here "today" is a parameter, a
  proleptic Gregorian calendar date, and stepping back is `PrevDay`.
 */
module Calendar {
  import opened Digits

  datatype CivilDate = CivilDate(year: int, month: int, day: int)

  predicate IsLeapYear(y: int)
  {
    (y % 4 == 0 && y % 100 != 0) || y % 400 == 0
  }

  function DaysInMonth(y: int, m: int): (n: int)
    requires 1 <= m <= 12
    ensures 28 <= n <= 31
  {
    if m == 2 then (if IsLeapYear(y) then 29 else 28)
    else if m == 4 || m == 6 || m == 9 || m == 11 then 30
    else 31
  }

  predicate Valid(d: CivilDate)
  {
    1 <= d.month <= 12 && 1 <= d.day <= DaysInMonth(d.year, d.month)
  }

  /** Chronological order. */
  predicate Before(a: CivilDate, b: CivilDate)
  {
    a.year < b.year ||
    (a.year == b.year && (a.month < b.month || (a.month == b.month && a.day < b.day)))
  }

  /** The day before `d` (`setDate(getDate() - 1)`). */
  function PrevDay(d: CivilDate): (p: CivilDate)
    requires Valid(d)
    ensures Valid(p) && Before(p, d)
  {
    if d.day > 1 then CivilDate(d.year, d.month, d.day - 1)
    else if d.month > 1 then CivilDate(d.year, d.month - 1, DaysInMonth(d.year, d.month - 1))
    else CivilDate(d.year - 1, 12, 31)
  }

  /**
    `PrevDay` steps back exactly one day: every valid date before `d` is
    `PrevDay(d)` or earlier than it, so no valid date lies in between.
   */
  lemma PrevDayImmediate(d: CivilDate, q: CivilDate)
    requires Valid(d) && Valid(q)
    ensures Before(q, d) <==> q == PrevDay(d) || Before(q, PrevDay(d))
  {
  }

  /** The date `n` days before `t`. */
  function DaysBack(t: CivilDate, n: nat): (d: CivilDate)
    requires Valid(t)
    ensures Valid(d)
  {
    if n == 0 then t else PrevDay(DaysBack(t, n - 1))
  }

  /** Within six days the year drops at most once, into the last days of December. */
  lemma {:induction false} DaysBackYear(t: CivilDate, n: nat)
    requires Valid(t) && n <= 6
    ensures var d := DaysBack(t, n);
      d.year == t.year || (d.year == t.year - 1 && d.month == 12 && d.day >= 32 - n)
  {
    if n > 0 {
      DaysBackYear(t, n - 1);
    }
  }

  /** Stepping further back gives a strictly earlier date. */
  lemma {:induction false} DaysBackEarlier(t: CivilDate, i: nat, j: nat)
    requires Valid(t) && i < j
    ensures Before(DaysBack(t, j), DaysBack(t, i))
  {
    if j - 1 > i {
      DaysBackEarlier(t, i, j - 1);
    }
  }

  /** The `YYYY-MM-DD` form of a date with a four-digit year. */
  function Iso(d: CivilDate): (s: string)
    requires Valid(d) && 0 <= d.year <= 9999
    ensures IsoShaped(s)
  {
    Pad(d.year, 4) + "-" + Pad(d.month, 2) + "-" + Pad(d.day, 2)
  }

  /** Four digits, a dash, two digits, a dash, two digits. */
  predicate IsoShaped(s: string)
  {
    |s| == 10 && s[4] == '-' && s[7] == '-' &&
    forall k :: 0 <= k < 10 && k != 4 && k != 7 ==> IsDigit(s[k])
  }

  /** Distinct dates have distinct ISO strings. */
  lemma IsoInjective(a: CivilDate, b: CivilDate)
    requires Valid(a) && 0 <= a.year <= 9999
    requires Valid(b) && 0 <= b.year <= 9999
    requires Iso(a) == Iso(b)
    ensures a == b
  {
    var s, t := Iso(a), Iso(b);
    assert s[..4] == Pad(a.year, 4) && t[..4] == Pad(b.year, 4);
    assert s[5..7] == Pad(a.month, 2) && t[5..7] == Pad(b.month, 2);
    assert s[8..] == Pad(a.day, 2) && t[8..] == Pad(b.day, 2);
    PadValue(a.year, 4); PadValue(b.year, 4);
    PadValue(a.month, 2); PadValue(b.month, 2);
    PadValue(a.day, 2); PadValue(b.day, 2);
  }

  /** The digits of the ISO string denote the date's year, month and day, in that order. */
  lemma IsoValue(d: CivilDate)
    requires Valid(d) && 0 <= d.year <= 9999
    ensures DigitsValue(Iso(d)[..4]) == d.year
    ensures DigitsValue(Iso(d)[5..7]) == d.month
    ensures DigitsValue(Iso(d)[8..]) == d.day
  {
    var s := Iso(d);
    assert s[..4] == Pad(d.year, 4);
    assert s[5..7] == Pad(d.month, 2);
    assert s[8..] == Pad(d.day, 2);
    PadValue(d.year, 4);
    PadValue(d.month, 2);
    PadValue(d.day, 2);
  }

  /** The `k`-th date of the window ending at `today`, oldest first. */
  function WindowDay(today: CivilDate, k: nat): (d: CivilDate)
    requires Valid(today) && 1 <= today.year <= 9999 && k < 7
    ensures Valid(d) && 0 <= d.year <= 9999
  {
    DaysBackYear(today, 6 - k);
    DaysBack(today, 6 - k)
  }

  /** Neighbouring window days are consecutive calendar days. */
  lemma WindowConsecutive(today: CivilDate, k: nat)
    requires Valid(today) && 1 <= today.year <= 9999 && k < 6
    ensures WindowDay(today, k) == PrevDay(WindowDay(today, k + 1))
    ensures forall q :: Valid(q) && Before(q, WindowDay(today, k + 1)) ==>
      q == WindowDay(today, k) || Before(q, WindowDay(today, k))
  {
    forall q | Valid(q) && Before(q, WindowDay(today, k + 1))
      ensures q == WindowDay(today, k) || Before(q, WindowDay(today, k))
    {
      PrevDayImmediate(WindowDay(today, k + 1), q);
    }
  }

  /** The seven date strings ending at `today` (`last7Days`). */
  function LastSevenDays(today: CivilDate): (w: seq<string>)
    requires Valid(today) && 1 <= today.year <= 9999
  {
    seq(7, k requires 0 <= k < 7 => Iso(WindowDay(today, k)))
  }

  /**
    The window has seven well-formed dates, strictly increasing in time,
    hence pairwise distinct, and the last one is today.
   */
  lemma LastSevenDaysShape(today: CivilDate)
    requires Valid(today) && 1 <= today.year <= 9999
    ensures var w := LastSevenDays(today);
      |w| == 7 && w[6] == Iso(today) &&
      (forall k :: 0 <= k < 7 ==> IsoShaped(w[k])) &&
      (forall i, j :: 0 <= i < j < 7 ==> Before(WindowDay(today, i), WindowDay(today, j))) &&
      (forall i, j :: 0 <= i < j < 7 ==> w[i] != w[j])
  {
    var w := LastSevenDays(today);
    forall i, j | 0 <= i < j < 7
      ensures Before(WindowDay(today, i), WindowDay(today, j)) && w[i] != w[j]
    {
      DaysBackEarlier(today, 6 - j, 6 - i);
      if w[i] == w[j] {
        IsoInjective(WindowDay(today, i), WindowDay(today, j));
      }
    }
  }

  /** The window ending on 3 January 2024 reaches back into December 2023. */
  lemma WindowAcrossNewYear()
    ensures LastSevenDays(CivilDate(2024, 1, 3)) ==
      ["2023-12-28", "2023-12-29", "2023-12-30", "2023-12-31", "2024-01-01", "2024-01-02", "2024-01-03"]
  {
    WindowAcrossNewYearDates();
    IsoLateDecember2023();
    IsoEndOfDecember2023();
    IsoJanuary2024();
  }

  lemma WindowAcrossNewYearDates()
    ensures var t := CivilDate(2024, 1, 3);
      WindowDay(t, 0) == CivilDate(2023, 12, 28) && WindowDay(t, 1) == CivilDate(2023, 12, 29) &&
      WindowDay(t, 2) == CivilDate(2023, 12, 30) && WindowDay(t, 3) == CivilDate(2023, 12, 31) &&
      WindowDay(t, 4) == CivilDate(2024, 1, 1) && WindowDay(t, 5) == CivilDate(2024, 1, 2) &&
      WindowDay(t, 6) == t
  {
    var t := CivilDate(2024, 1, 3);
    assert DaysBack(t, 2) == CivilDate(2024, 1, 1);
    assert DaysBack(t, 3) == CivilDate(2023, 12, 31);
    assert DaysBack(t, 5) == CivilDate(2023, 12, 29);
    assert DaysBack(t, 6) == CivilDate(2023, 12, 28);
  }

  lemma Pad2023()
    ensures Pad(2023, 4) == "2023" && Pad(12, 2) == "12"
  {
    assert Pad(2, 1) == "2" && Pad(20, 2) == "20" && Pad(202, 3) == "202";
  }

  lemma IsoLateDecember2023()
    ensures Iso(CivilDate(2023, 12, 28)) == "2023-12-28" && Iso(CivilDate(2023, 12, 29)) == "2023-12-29"
  {
    Pad2023();
    assert Pad(28, 2) == "28" && Pad(29, 2) == "29";
  }

  lemma IsoEndOfDecember2023()
    ensures Iso(CivilDate(2023, 12, 30)) == "2023-12-30" && Iso(CivilDate(2023, 12, 31)) == "2023-12-31"
  {
    Pad2023();
    assert Pad(30, 2) == "30" && Pad(31, 2) == "31";
  }

  lemma IsoJanuary2024()
    ensures Iso(CivilDate(2024, 1, 1)) == "2024-01-01" && Iso(CivilDate(2024, 1, 2)) == "2024-01-02"
    ensures Iso(CivilDate(2024, 1, 3)) == "2024-01-03"
  {
    assert Pad(2024, 4) == "2024" by {
      assert Pad(2, 1) == "2" && Pad(20, 2) == "20" && Pad(202, 3) == "202";
    }
    assert Pad(1, 2) == "01" && Pad(2, 2) == "02" && Pad(3, 2) == "03";
  }
}
