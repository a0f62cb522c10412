/** contracts/credit-retirement: the calendar year of a timestamp. The constant-time algorithm is
    proved against the Gregorian calendar counted year by year (leap rule of section 3.2.1 of
    ISO 8601:2004). */
module Calendar {

  const SECONDS_PER_DAY: int := 86_400
  const U32_RANGE: int := 0x1_0000_0000

  // ----- the calendar, counted year by year -----

  predicate Leap(y: nat) {
    y % 4 == 0 && (y % 100 != 0 || y % 400 == 0)
  }

  function YearLength(y: nat): nat {
    if Leap(y) then 366 else 365
  }

  /** Days from 1970-01-01 to January 1 of year `y`. */
  function NewYear(y: nat): nat
    requires y >= 1970
  {
    if y == 1970 then 0 else NewYear(y - 1) + YearLength(y - 1)
  }

  // ----- the algorithm -----

  /** Year of the 400-year era that starts on March 1, from the day of the era. */
  function YearOfEra(dayOfEra: nat): nat {
    (dayOfEra - dayOfEra / 1_460 + dayOfEra / 36_524 - dayOfEra / 146_096) / 365
  }

  /** The year before it is cast to u32. */
  function WideYear(timestamp: nat): nat {
    var days := timestamp / SECONDS_PER_DAY;
    var shifted := days + 719_468;
    var era := shifted / 146_097;
    var dayOfEra := shifted % 146_097;
    var yearOfEra := YearOfEra(dayOfEra);
    var year := yearOfEra + era * 400;
    var dayOfYear := dayOfEra - (365 * yearOfEra + yearOfEra / 4 - yearOfEra / 100);
    var shiftedMonth := (5 * dayOfYear + 2) / 153;
    var month := if shiftedMonth < 10 then shiftedMonth + 3 else shiftedMonth - 9;
    if month <= 2 then year + 1 else year
  }

  function YearFromTimestamp(timestamp: nat): nat {
    WideYear(timestamp) % U32_RANGE
  }

  // ----- correctness -----

  /** Days from 0000-03-01 to March 1 of year `y`. */
  function MarchDay(y: nat): nat {
    365 * y + y / 4 - y / 100 + y / 400
  }

  /** The year-by-year count in closed form. */
  lemma {:induction false} NewYearClosed(y: nat)
    requires y >= 1970
    ensures NewYear(y) + 719_468 == MarchDay(y - 1) + 306
    decreases y
  {
    if y > 1970 {
      NewYearClosed(y - 1);
      LeapStep(y - 1);
    }
  }

  /** Quotient and remainder are determined by their equation. */
  lemma DivIs(x: nat, q: nat, n: nat, r: nat)
    requires r < q && x == q * n + r
    ensures x / q == n && x % q == r
  {
    var e := x / q;
    assert x == q * e + x % q;
    Multiples(q, e - n);
    assert q * (e - n) == q * e - q * n;
  }

  lemma Multiples(q: nat, z: int)
    ensures z >= 1 ==> q * z >= q
    ensures z <= -1 ==> q * z + q <= 0
  {
  }

  lemma QuotientStep(y: nat, q: nat)
    requires y >= 1 && q >= 1
    ensures y / q == (y - 1) / q + (if y % q == 0 then 1 else 0)
  {
    var n, r := y / q, y % q;
    assert y == q * n + r;
    if r > 0 {
      DivIs(y - 1, q, n, r - 1);
    } else {
      Multiples(q, n);
      assert q * (n - 1) == q * n - q;
      DivIs(y - 1, q, n - 1, q - 1);
    }
  }

  lemma DividesDown(y: nat, q: nat, p: nat, k: nat)
    requires p >= 1 && q == p * k && q >= 1 && y % q == 0
    ensures y % p == 0
  {
    var n := y / q;
    assert y == q * n;
    assert q * n == p * (k * n);
    DivIs(y, p, k * n, 0);
  }

  lemma LeapStep(y: nat)
    requires y >= 1
    ensures MarchDay(y) == MarchDay(y - 1) + YearLength(y)
  {
    QuotientStep(y, 4);
    QuotientStep(y, 100);
    QuotientStep(y, 400);
    if y % 100 == 0 {
      DividesDown(y, 100, 4, 25);
    }
    if y % 400 == 0 {
      DividesDown(y, 400, 100, 4);
    }
  }

  /** A day of the era, split into century, four-year cycle, year of the cycle and day of the year. */
  datatype EraDay = EraDay(century: nat, cycle: nat, year: nat, day: nat)

  predicate ValidEraDay(e: EraDay) {
    && e.century <= 3 && e.cycle <= 24 && e.year <= 3 && e.day <= 365
    && (e.day == 365 ==> e.year == 3 && (e.cycle < 24 || e.century == 3))
  }

  function DayOf(e: EraDay): nat {
    36_524 * e.century + 1_461 * e.cycle + 365 * e.year + e.day
  }

  function SplitEraDay(d: nat): (e: EraDay)
    requires d < 146_097
    ensures ValidEraDay(e) && DayOf(e) == d
  {
    var century := if d / 36_524 > 3 then 3 else d / 36_524;
    var inCentury := d - 36_524 * century;
    var cycle := inCentury / 1_461;
    var inCycle := inCentury - 1_461 * cycle;
    var year := if inCycle / 365 > 3 then 3 else inCycle / 365;
    EraDay(century, cycle, year, inCycle - 365 * year)
  }

  lemma CenturyQuotients(e: EraDay)
    requires ValidEraDay(e)
    ensures DayOf(e) / 36_524 - DayOf(e) / 146_096 == e.century
  {
    var inCentury := 1_461 * e.cycle + 365 * e.year + e.day;
    if inCentury < 36_524 {
      DivIs(DayOf(e), 36_524, e.century, inCentury);
      DivIs(DayOf(e), 146_096, 0, DayOf(e));
    } else {
      assert inCentury == 36_524 && e.century == 3;
      DivIs(DayOf(e), 36_524, 4, 0);
      DivIs(DayOf(e), 146_096, 1, 0);
    }
  }

  lemma CycleQuotient(e: EraDay)
    requires ValidEraDay(e)
    ensures var r := 24 * e.century + e.cycle + 365 * e.year + e.day;
            DayOf(e) / 1_460 == 25 * e.century + e.cycle + (if r >= 1_460 then 1 else 0)
  {
    var n, r := 25 * e.century + e.cycle, 24 * e.century + e.cycle + 365 * e.year + e.day;
    assert DayOf(e) == 1_460 * n + r && r < 2_920;
    if r >= 1_460 {
      DivIs(DayOf(e), 1_460, n + 1, r - 1_460);
    } else {
      DivIs(DayOf(e), 1_460, n, r);
    }
  }

  function YearIn(e: EraDay): nat {
    100 * e.century + 4 * e.cycle + e.year
  }

  /** The closed-form division finds the year. */
  lemma YearOfEraCorrect(e: EraDay)
    requires ValidEraDay(e)
    ensures YearOfEra(DayOf(e)) == YearIn(e)
  {
    CenturyQuotients(e);
    CycleQuotient(e);
    var late := if 24 * e.century + e.cycle + 365 * e.year + e.day >= 1_460 then 1 else 0;
    var x := DayOf(e) - DayOf(e) / 1_460 + e.century;
    assert x == 365 * YearIn(e) + (e.day - late);
    DivIs(x, 365, YearIn(e), e.day - late);
  }

  lemma MarchDayInEra(era: nat, e: EraDay)
    requires ValidEraDay(e)
    ensures 365 * YearIn(e) + YearIn(e) / 4 - YearIn(e) / 100 == DayOf(e) - e.day
    ensures MarchDay(400 * era + YearIn(e)) == 146_097 * era + DayOf(e) - e.day
  {
    var yoe := YearIn(e);
    var y := 400 * era + yoe;
    DivIs(yoe, 4, 25 * e.century + e.cycle, e.year);
    DivIs(yoe, 100, e.century, 4 * e.cycle + e.year);
    DivIs(y, 4, 100 * era + 25 * e.century + e.cycle, e.year);
    DivIs(y, 100, 4 * era + e.century, 4 * e.cycle + e.year);
    DivIs(y, 400, era, yoe);
  }

  lemma LeapDayYear(era: nat, e: EraDay)
    requires ValidEraDay(e) && e.day == 365
    ensures Leap(400 * era + YearIn(e) + 1)
  {
    var z := 400 * era + YearIn(e) + 1;
    DivIs(z, 4, 100 * era + 25 * e.century + e.cycle + 1, 0);
    if e.cycle == 24 {
      DivIs(z, 400, era + 1, 0);
    } else {
      DivIs(z, 100, 4 * era + e.century, 4 * (e.cycle + 1));
    }
  }

  lemma MarchYearEnds(era: nat, e: EraDay, y: nat)
    requires ValidEraDay(e) && y == 400 * era + YearIn(e)
    ensures MarchDay(y) == 146_097 * era + DayOf(e) - e.day
    ensures 146_097 * era + DayOf(e) < MarchDay(y + 1)
  {
    hide MarchDay, Leap;
    MarchDayInEra(era, e);
    LeapStep(y + 1);
    if e.day == 365 {
      LeapDayYear(era, e);
    }
  }

  /** The March-based year of a day starts at or before it, and the next one after it. */
  lemma MarchYear(shifted: nat, yoe: nat, y: nat)
    requires yoe == YearOfEra(shifted % 146_097) && y == yoe + shifted / 146_097 * 400
    ensures && shifted % 146_097 - (365 * yoe + yoe / 4 - yoe / 100) == shifted - MarchDay(y)
            && MarchDay(y) <= shifted < MarchDay(y + 1)
            && shifted - MarchDay(y) <= 365
  {
    hide YearOfEra, SplitEraDay, MarchDay, YearIn, DayOf;
    var era := shifted / 146_097;
    var e := SplitEraDay(shifted % 146_097);
    YearOfEraCorrect(e);
    MarchDayInEra(era, e);
    MarchYearEnds(era, e, y);
  }

  lemma MonthSplit(dayOfYear: nat)
    requires dayOfYear <= 365
    ensures var m := (5 * dayOfYear + 2) / 153;
            ((if m < 10 then m + 3 else m - 9) <= 2) <==> dayOfYear >= 306
  {
  }

  /** January and February belong to the next calendar year. */
  lemma WideYearSplits(timestamp: nat, y: nat)
    requires y == YearOfEra((timestamp / SECONDS_PER_DAY + 719_468) % 146_097) + (timestamp / SECONDS_PER_DAY + 719_468) / 146_097 * 400
    ensures WideYear(timestamp) == if timestamp / SECONDS_PER_DAY + 719_468 - MarchDay(y) >= 306 then y + 1 else y
    ensures MarchDay(y) <= timestamp / SECONDS_PER_DAY + 719_468 < MarchDay(y + 1)
  {
    hide YearOfEra, MarchDay;
    var shifted := timestamp / SECONDS_PER_DAY + 719_468;
    MarchYear(shifted, YearOfEra(shifted % 146_097), y);
    MonthSplit(timestamp / SECONDS_PER_DAY + 719_468 - MarchDay(y));
  }

  /** January 1 of the year found is at or before the day, and the next January 1 is after it. */
  lemma WideYearCorrect(timestamp: nat)
    ensures WideYear(timestamp) >= 1970
    ensures NewYear(WideYear(timestamp)) <= timestamp / SECONDS_PER_DAY < NewYear(WideYear(timestamp) + 1)
  {
    hide YearOfEra, WideYear, Leap, NewYear;
    var days := timestamp / SECONDS_PER_DAY;
    var y := YearOfEra((days + 719_468) % 146_097) + (days + 719_468) / 146_097 * 400;
    WideYearSplits(timestamp, y);
    SinceEpoch(y, days);
    var year := WideYear(timestamp);
    NewYearClosed(year);
    NewYearClosed(year + 1);
    hide MarchDay;
    LeapStep(y);
    LeapStep(y + 1);
  }

  lemma SinceEpoch(y: nat, days: nat)
    requires days + 719_468 < MarchDay(y + 1)
    ensures y >= 1969
    ensures y == 1969 ==> days + 719_468 - MarchDay(y) >= 306
  {
  }

  lemma {:induction false} NewYearMonotone(y: nat, z: nat)
    requires 1970 <= y < z
    ensures NewYear(y) < NewYear(z)
    decreases z
  {
    if y < z - 1 {
      NewYearMonotone(y, z - 1);
    }
  }

  /** For every timestamp whose year fits in u32, the contract's year is the one and only year whose
      January 1 is at or before that day and whose next January 1 is after it. */
  lemma YearIsUnique(timestamp: nat, y: nat)
    requires 1970 <= y < U32_RANGE
    ensures (NewYear(y) <= timestamp / SECONDS_PER_DAY < NewYear(y + 1)) <==> (YearFromTimestamp(timestamp) == y && WideYear(timestamp) == y)
  {
    hide WideYear, NewYear;
    var w := WideYear(timestamp);
    WideYearCorrect(timestamp);
    if w < y {
      if w + 1 < y {
        NewYearMonotone(w + 1, y);
      }
    } else if y < w {
      if y + 1 < w {
        NewYearMonotone(y + 1, w);
      }
    }
  }

  /** Later timestamps never fall in earlier years. */
  lemma YearIsMonotone(a: nat, b: nat)
    requires a <= b && WideYear(b) < U32_RANGE
    ensures YearFromTimestamp(a) <= YearFromTimestamp(b)
  {
    hide WideYear, NewYear;
    WideYearCorrect(a);
    WideYearCorrect(b);
    assert a / SECONDS_PER_DAY <= b / SECONDS_PER_DAY;
    var x, y := WideYear(a), WideYear(b);
    if y + 1 < x {
      NewYearMonotone(y + 1, x);
    }
  }
}
