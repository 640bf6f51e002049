/** Stepping dates by months: a loop that repairs overflowing dates, and its closed form. */
module Calendars {
  import opened Base

  // ---------- the calendar ----------

  predicate IsLeapYear(year: int) {
    (year % 4 == 0 && year % 100 != 0) || year % 400 == 0
  }

  function DaysInMonth(year: int, month: nat): nat
    requires month < 12
  {
    [31, if IsLeapYear(year) then 29 else 28, 31, 30, 31, 30, 31, 31, 30, 31, 30, 31][month]
  }

  /** Months are numbered on through the years: month m, from 0, of year y is 12y + m. */
  function Length(q: int): nat {
    DaysInMonth(q / 12, q % 12)
  }

  /** A day of a month, not necessarily one that the month has. */
  datatype Civil = Civil(month: int, day: int) {
    predicate Real() {
      1 <= day <= Length(month)
    }
  }

  lemma LengthBounds(q: int)
    ensures 28 <= Length(q) <= 31
  {
  }

  /** The day of the first of month q, counted from the first of month 0. */
  ghost function Start(q: int): int
    decreases if q < 0 then -q else q
  {
    if q == 0 then 0 else if q > 0 then Start(q - 1) + Length(q - 1) else Start(q + 1) - Length(q)
  }

  lemma StartNext(q: int)
    ensures Start(q + 1) == Start(q) + Length(q)
  {
  }

  ghost function DayNumber(c: Civil): int {
    Start(c.month) + c.day - 1
  }

  /** The number of days before year y, from the first day of 1970 on: DayFromYear in section 15.9.1.3 of ECMA-262. */
  ghost function DayFromYear(y: int): int {
    365 * (y - 1970) + (y - 1969) / 4 - (y - 1901) / 100 + (y - 1601) / 400
  }

  lemma MonthStep(y: int, k: nat)
    requires k < 12
    ensures Start(12 * y + (k + 1)) == Start(12 * y + k) + DaysInMonth(y, k)
  {
    StartNext(12 * y + k);
    assert (12 * y + k) / 12 == y && (12 * y + k) % 12 == k;
    assert 12 * y + (k + 1) == 12 * y + k + 1;
  }

  lemma YearLength(y: int)
    ensures Start(12 * y + 12) - Start(12 * y) == if IsLeapYear(y) then 366 else 365
  {
    hide Start;
    MonthStep(y, 0);
    MonthStep(y, 1);
    MonthStep(y, 2);
    MonthStep(y, 3);
    MonthStep(y, 4);
    MonthStep(y, 5);
    MonthStep(y, 6);
    MonthStep(y, 7);
    MonthStep(y, 8);
    MonthStep(y, 9);
    MonthStep(y, 10);
    MonthStep(y, 11);
    assert 12 * y + 0 == 12 * y;
  }

  /** The day within its year on which each month begins: MonthFromTime in section 15.9.1.4 of ECMA-262. */
  lemma MonthsAgree(y: int, k: nat)
    requires k < 12
    ensures Start(12 * y + k) - Start(12 * y) ==
      [0, 31, 59, 90, 120, 151, 181, 212, 243, 273, 304, 334][k] + if k >= 2 && IsLeapYear(y) then 1 else 0
  {
    hide Start;
    if k > 0 {
      MonthsAgree(y, k - 1);
      MonthStep(y, k - 1);
    } else {
      assert 12 * y + 0 == 12 * y;
    }
  }

  lemma Divide(a: int, k: nat)
    requires k > 0
    ensures (a + 1) / k == a / k + if (a + 1) % k == 0 then 1 else 0
  {
    var q, r := a / k, a % k;
    assert a == q * k + r;
    if r + 1 == k {
      assert a + 1 == (q + 1) * k;
      Quotients(a + 1, k, q + 1, 0);
    } else {
      Quotients(a + 1, k, q, r + 1);
    }
  }

  lemma Quotients(a: int, k: nat, q: int, r: nat)
    requires k > 0 && a == q * k + r && r < k
    ensures a / k == q && a % k == r
  {
    var d := a / k - q;
    assert a == (a / k) * k + a % k;
    assert d * k == r - a % k;
    assert d >= 1 ==> d * k >= k;
    assert d <= -1 ==> d * k <= 0 - k;
  }

  lemma LeapStep(y: int)
    ensures DayFromYear(y + 1) - DayFromYear(y) == if IsLeapYear(y) then 366 else 365
  {
    Divide(y - 1969, 4);
    Divide(y - 1901, 100);
    Divide(y - 1601, 400);
    Shifted(y);
  }

  lemma Multiple(y: int, k: nat, m: int)
    requires k > 0
    ensures (y - m * k) % k == y % k
  {
    assert y - m * k == (y / k - m) * k + y % k;
    Quotients(y - m * k, k, y / k - m, y % k);
  }

  lemma Shifted(y: int)
    ensures (y - 1968) % 4 == y % 4 && (y - 1900) % 100 == y % 100 && (y - 1600) % 400 == y % 400
  {
    Multiple(y, 4, 492);
    Multiple(y, 100, 19);
    Multiple(y, 400, 4);
  }

  /** The day numbers agree with the standard's, for all years. */
  lemma {:induction false} YearsAgree(y: int)
    ensures Start(12 * y) - Start(12 * 1970) == DayFromYear(y)
    decreases if y < 1970 then 1970 - y else y - 1970
  {
    hide Start, DayFromYear, IsLeapYear;
    if y > 1970 {
      YearsAgree(y - 1);
      YearLength(y - 1);
      LeapStep(y - 1);
      assert 12 * (y - 1) + 12 == 12 * y;
    } else if y < 1970 {
      YearsAgree(y + 1);
      YearLength(y);
      LeapStep(y);
      assert 12 * y + 12 == 12 * (y + 1);
    } else {
      Epoch();
    }
  }

  lemma Epoch()
    ensures DayFromYear(1970) == 0
  {
  }

  /** The real date that day d of month q falls on: MakeDay in section 15.9.1.12 of ECMA-262. */
  function MakeDay(q: int, d: int): (c: Civil)
    ensures c.Real() && DayNumber(c) == Start(q) + d - 1
    decreases if d < 1 then 1 else 0, if d < 1 then -d else d
  {
    LengthBounds(q);
    LengthBounds(q - 1);
    StartNext(q);
    StartNext(q - 1);
    if d < 1 then MakeDay(q - 1, d + Length(q - 1))
    else if d > Length(q) then MakeDay(q + 1, d - Length(q))
    else Civil(q, d)
  }

  /** There is only one real date for a day number. */
  lemma {:induction false} RealOnce(a: Civil, b: Civil)
    requires a.Real() && b.Real() && DayNumber(a) == DayNumber(b)
    ensures a == b
  {
    if a.month < b.month {
      StartGrows(a.month + 1, b.month);
      StartNext(a.month);
    } else if b.month < a.month {
      StartGrows(b.month + 1, a.month);
      StartNext(b.month);
    }
  }

  lemma {:induction false} StartGrows(p: int, q: int)
    requires p <= q
    ensures Start(p) <= Start(q)
    decreases q - p
  {
    if p < q {
      StartGrows(p, q - 1);
      StartNext(q - 1);
    }
  }

  // ---------- dates that are set in place ----------

  class UtcDate {
    var month: int
    var day: int

    predicate Valid()
      reads this
    {
      Civil(month, day).Real()
    }

    function Value(): Civil
      reads this
    {
      Civil(month, day)
    }

    constructor (c: Civil)
      requires c.Real()
      ensures Valid() && Value() == c
    {
      month, day := c.month, c.day;
    }

    function GetUTCFullYear(): int
      reads this
    {
      month / 12
    }

    function GetUTCMonth(): int
      reads this
    {
      month % 12
    }

    function GetUTCDate(): int
      reads this
    {
      day
    }

    method SetUTCDate(d: int)
      modifies this
      ensures Valid() && Value() == MakeDay(old(month), d)
    {
      var c := MakeDay(month, d);
      month, day := c.month, c.day;
    }

    method SetUTCMonth(m: int)
      modifies this
      ensures Valid() && Value() == MakeDay(12 * (old(month) / 12) + m, old(day))
    {
      var c := MakeDay(12 * GetUTCFullYear() + m, day);
      month, day := c.month, c.day;
    }

    method SetUTCFullYear(y: int)
      modifies this
      ensures Valid() && Value() == MakeDay(12 * y + old(month) % 12, old(day))
    {
      var c := MakeDay(12 * y + GetUTCMonth(), day);
      month, day := c.month, c.day;
    }
  }

  // ---------- moving by months ----------

  /** The same day n months later, or the last day of that month if it is shorter. */
  function Moved(c: Civil, n: int): Civil {
    Civil(c.month + n, if c.day <= Length(c.month + n) then c.day else Length(c.month + n))
  }

  /** The months next to a short month are long, and in the same year. */
  lemma ShortMonth(q: int)
    requires Length(q) < 31
    ensures Length(q - 1) == 31 && Length(q + 1) == 31
    ensures (q - 1) / 12 == (q + 1) / 12 == q / 12 && (q + 1) % 12 == q % 12 + 1 && (q - 1) % 12 == q % 12 - 1
  {
    var y, k := q / 12, q % 12;
    assert q == y * 12 + k && 0 < k < 11;
    Quotients(q - 1, 12, y, k - 1);
    Quotients(q + 1, 12, y, k + 1);
  }

  /** A day that a short month does not have falls on one of the first days of the next month. */
  lemma Overflow(q: int, d: int)
    requires 1 <= d <= 31
    ensures MakeDay(q, d) == if d <= Length(q) then Civil(q, d) else Civil(q + 1, d - Length(q))
  {
    if d > Length(q) {
      ShortMonth(q);
      assert MakeDay(q + 1, d - Length(q)) == Civil(q + 1, d - Length(q));
    }
  }

  /** The repair loop: as long as `test` finds the date in the month after q, the day before is tried: it is set in the
      next month, where it exists, and then the month is set back. */
  method Repair(date: UtcDate, ghost q: int, start: int, newMonth: int, test: int -> bool)
    requires date.Valid() && 1 <= start <= 31 && date.Value() == MakeDay(q, start) && newMonth == q % 12
    requires !test(q % 12) && test((q + 1) % 12)
    modifies date
    ensures date.Valid() && date.Value() == Civil(q, if start <= Length(q) then start else Length(q))
  {
    hide MakeDay, Length;
    var day := start;
    Overflow(q, day);
    LengthBounds(q);
    while test(date.GetUTCMonth())
      invariant date.Valid() && date.Value() == MakeDay(q, day) && 1 <= day <= 31
      invariant start <= Length(q) ==> day == start
      invariant start > Length(q) ==> Length(q) <= day
      decreases day
    {
      Overflow(q, day);
      ShortMonth(q);
      day := day - 1;
      Overflow(q + 1, day);
      date.SetUTCDate(day);
      Overflow(q, day);
      assert 12 * (q / 12) + newMonth == q;
      date.SetUTCMonth(newMonth);
    }
    Overflow(q, day);
  }

  lemma NextMonth(q: int)
    ensures (q + 1) % 12 != q % 12
    ensures 12 * (q / 12) + q % 12 == q
    ensures var m := q % 12 + 1; (if m > 11 then (m + 12) % 12 else m) == (q + 1) % 12
    ensures var m := q % 12 - 1; (if m < 0 then (m + 12) % 12 else m) == (q - 1) % 12
  {
  }

  /** The date moved by dir months, forwards or backwards: the same day of the month, or its last day if it is shorter,
      although the code goes one month at a time, on which the day may get lost. */
  method MoveMonth(date: UtcDate, dir: int) returns (newDate: UtcDate)
    requires date.Valid()
    ensures newDate.Valid() && newDate.Value() == Moved(date.Value(), dir)
    ensures dir == 0 ==> newDate == date
    ensures dir != 0 ==> fresh(newDate)
    decreases if dir < 0 then -dir else dir
  {
    hide MakeDay, Length;
    if dir == 0 {
      SameMonth(date.Value());
      return date;
    }
    newDate := new UtcDate(date.Value());
    var day, month, mag := newDate.GetUTCDate(), newDate.GetUTCMonth(), if dir < 0 then -dir else dir;
    var step := if dir > 0 then 1 else -1;
    ghost var q := newDate.month;
    var newMonth: int;
    var test: int -> bool;
    DayBounds(newDate.Value());
    NextMonth(q);
    NextMonth(q - 1);
    NextMonth(q + dir);
    if mag == 1 {
      newMonth := month + step;
      newDate.SetUTCMonth(newMonth);
      if newMonth < 0 || newMonth > 11 {
        newMonth := (newMonth + 12) % 12;
      }
      if step == -1 {
        test := m => m == month;
      } else {
        test := m => m != newMonth;
      }
    } else {
      for i := 0 to mag
        invariant fresh(newDate) && newDate.Valid() && newDate.month == q + step * i
      {
        newDate := MoveMonth(newDate, step);
      }
      assert step * mag == dir;
      newMonth := newDate.GetUTCMonth();
      newDate.SetUTCDate(day);
      test := m => newMonth != m;
    }
    Repair(newDate, q + dir, day, newMonth, test);
  }

  lemma DayBounds(c: Civil)
    requires c.Real()
    ensures 1 <= c.day <= 31
  {
    LengthBounds(c.month);
  }

  lemma SameMonth(c: Civil)
    requires c.Real()
    ensures Moved(c, 0) == c
  {
  }

  /** The date moved by dir years. */
  method MoveYear(date: UtcDate, dir: int) returns (newDate: UtcDate)
    requires date.Valid()
    ensures newDate.Valid() && newDate.Value() == Moved(date.Value(), 12 * dir)
    ensures dir == 0 ==> newDate == date
    ensures dir != 0 ==> fresh(newDate)
  {
    newDate := MoveMonth(date, dir * 12);
  }

  /** Moving by years changes only the year, but for the last day of February. */
  lemma MovedYears(c: Civil, n: int)
    requires c.Real()
    ensures var m := Moved(c, 12 * n); m.month / 12 == c.month / 12 + n && m.month % 12 == c.month % 12
    ensures var m := Moved(c, 12 * n); m.Real() && (m.day == c.day || (c.month % 12 == 1 && c.day == 29 && m.day == 28 && !IsLeapYear(c.month / 12 + n)))
  {
    var q := c.month + 12 * n;
    assert q / 12 == c.month / 12 + n && q % 12 == c.month % 12;
    LengthBounds(q);
  }
}
