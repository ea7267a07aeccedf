/**
 Year inference for RFC 3164 timestamps, `nearestRFC3164Time` in
 backend/internal/parser/parser.go:112-134. Times are nanoseconds on the proleptic Gregorian
 calendar in a zone with a fixed offset; month names and clock text are already numbers.
 */
module YearInference {
  import opened Wrappers

  const NS_PER_DAY := 86_400_000_000_000

  /** Month from 1, day and clock, as `time.Parse` reads them. */
  datatype Stamp = Stamp(month: int, day: int, hour: int, minute: int, second: int)

  predicate Leap(y: int) { y % 4 == 0 && (y % 100 != 0 || y % 400 == 0) }

  function YearLength(y: int): int { if Leap(y) then 366 else 365 }

  function MonthLength(m: int, y: int): int
    requires 1 <= m <= 12
  {
    if m == 2 then (if Leap(y) then 29 else 28)
    else if m == 4 || m == 6 || m == 9 || m == 11 then 30 else 31
  }

  /** Days from the start of year 1 to the start of a year. */
  function YearStart(y: int): int {
    var n := y - 1;
    365 * n + n / 4 - n / 100 + n / 400
  }

  /** Days of a year before a month. */
  function MonthStart(m: int, y: int): int
    requires 1 <= m <= 13
  {
    if m == 1 then 0 else MonthStart(m - 1, y) + MonthLength(m - 1, y)
  }

  predicate ClockOk(s: Stamp) { 0 <= s.hour < 24 && 0 <= s.minute < 60 && 0 <= s.second < 60 }

  /** What `time.ParseInLocation` accepts: a year of four digits and a day the month has. */
  predicate Parses(s: Stamp, y: int) {
    && 1000 <= y <= 9999
    && 1 <= s.month <= 12 && 1 <= s.day <= MonthLength(s.month, y)
    && ClockOk(s)
  }

  /** The instant of a stamp in a year. */
  function At(s: Stamp, y: int): int
    requires 1 <= s.month <= 12
  {
    (YearStart(y) + MonthStart(s.month, y) + s.day - 1) * NS_PER_DAY
    + ((s.hour * 60 + s.minute) * 60 + s.second) * 1_000_000_000
  }

  /** `base.Year()`: the year that contains an instant. */
  predicate InYear(base: int, y: int) {
    YearStart(y) * NS_PER_DAY <= base < YearStart(y + 1) * NS_PER_DAY
  }

  function Abs(x: int): nat { if x < 0 then -x else x }

  datatype Inferred = Found(year: int, instant: int) | ParseError

  /* ---------- Calendar facts ---------- */

  /** Division by 4, 100 and 400 is determined by its bounds. */
  lemma By4(x: int, q: int)
    requires 4 * q <= x < 4 * q + 4
    ensures x / 4 == q
  {
  }

  lemma By100(x: int, q: int)
    requires 100 * q <= x < 100 * q + 100
    ensures x / 100 == q
  {
  }

  lemma By400(x: int, q: int)
    requires 400 * q <= x < 400 * q + 400
    ensures x / 400 == q
  {
  }

  lemma Fourth(y: int)
    ensures y / 4 - (y - 1) / 4 == if y % 4 == 0 then 1 else 0
  {
    By4(y - 1, if y % 4 == 0 then y / 4 - 1 else y / 4);
  }

  lemma Hundredth(y: int)
    ensures y / 100 - (y - 1) / 100 == if y % 100 == 0 then 1 else 0
    ensures y % 100 == 0 ==> y % 4 == 0
  {
    var q := y / 100;
    By100(y - 1, if y % 100 == 0 then q - 1 else q);
    if y % 100 == 0 { By4(y, 25 * q); }
  }

  lemma FourHundredth(y: int)
    ensures y / 400 - (y - 1) / 400 == if y % 400 == 0 then 1 else 0
    ensures y % 400 == 0 ==> y % 100 == 0
  {
    var q := y / 400;
    By400(y - 1, if y % 400 == 0 then q - 1 else q);
    if y % 400 == 0 { By100(y, 4 * q); }
  }

  lemma NextYear(y: int)
    ensures YearStart(y + 1) == YearStart(y) + YearLength(y)
  {
    Fourth(y);
    Hundredth(y);
    FourHundredth(y);
  }

  /** The lengths of the months before March do not depend on the year, except February's. */
  lemma {:induction false} MonthStarts(m: int, y: int)
    requires 1 <= m <= 13
    ensures MonthStart(m, y) == (if m == 1 then 0 else if m == 2 then 31 else
                                 MonthStart(m, 1) + if Leap(y) then 1 else 0)
    ensures 0 <= MonthStart(m, y)
  {
    if m > 1 { MonthStarts(m - 1, y); }
  }

  lemma WholeYear(y: int)
    ensures MonthStart(13, y) == YearLength(y)
  {
    MonthStarts(13, y);
    assert MonthStart(3, 1) == 59;
    assert MonthStart(5, 1) == 120;
    assert MonthStart(7, 1) == 181;
    assert MonthStart(9, 1) == 243;
    assert MonthStart(11, 1) == 304;
  }

  lemma {:induction false} MonthsFit(m: int, y: int)
    requires 1 <= m <= 12
    ensures MonthStart(m, y) + MonthLength(m, y) <= MonthStart(13, y)
    decreases 12 - m
  {
    if m < 12 { MonthsFit(m + 1, y); }
  }

  /** A stamp lies within its year. */
  lemma AtInYear(s: Stamp, y: int)
    requires 1 <= s.month <= 12 && 1 <= s.day <= MonthLength(s.month, y) && ClockOk(s)
    ensures InYear(At(s, y), y)
  {
    NextYear(y);
    WholeYear(y);
    MonthsFit(s.month, y);
    MonthStarts(s.month, y);
    var days := YearStart(y) + MonthStart(s.month, y) + s.day - 1;
    assert YearStart(y) <= days <= YearStart(y + 1) - 1;
    assert 0 <= ((s.hour * 60 + s.minute) * 60 + s.second) * 1_000_000_000 < NS_PER_DAY;
  }

  /** A date other than February 29, which then exists in every year. */
  predicate EveryYear(s: Stamp) {
    1 <= s.month <= 12 && 1 <= s.day <= MonthLength(s.month, 1) && ClockOk(s)
  }

  lemma EveryYearHasIt(s: Stamp, y: int)
    requires EveryYear(s)
    ensures 1 <= s.day <= MonthLength(s.month, y)
  {
  }

  /** From one year to the next the same date moves by 365 or 366 days. */
  lemma Gap(s: Stamp, y: int)
    requires EveryYear(s)
    ensures 365 * NS_PER_DAY <= At(s, y + 1) - At(s, y) <= 366 * NS_PER_DAY
  {
    NextYear(y);
    MonthStarts(s.month, y);
    MonthStarts(s.month, y + 1);
    NotTwoLeapYears(y);
  }

  lemma NotTwoLeapYears(y: int)
    ensures !(Leap(y) && Leap(y + 1))
  {
  }

  lemma {:induction false} AtGrows(s: Stamp, y: int, z: int)
    requires EveryYear(s) && y <= z
    ensures At(s, y) <= At(s, z)
    decreases z - y
  {
    if y < z {
      Gap(s, y);
      AtGrows(s, y + 1, z);
    }
  }

  /** One second later on the clock and in the calendar. */
  function SecondLater(s: Stamp, y: int): (Stamp, int)
    requires 1 <= s.month <= 12
  {
    if s.second < 59 then (s.(second := s.second + 1), y)
    else if s.minute < 59 then (s.(minute := s.minute + 1, second := 0), y)
    else if s.hour < 23 then (s.(hour := s.hour + 1, minute := 0, second := 0), y)
    else if s.day < MonthLength(s.month, y) then (Stamp(s.month, s.day + 1, 0, 0, 0), y)
    else if s.month < 12 then (Stamp(s.month + 1, 1, 0, 0, 0), y)
    else (Stamp(1, 1, 0, 0, 0), y + 1)
  }

  /** Instants are the calendar: one second later is a billion nanoseconds more, over the ends of
      minutes, hours, days, months and years, and 1970 begins 719162 days after year 1. */
  lemma AtIsTheCalendar(s: Stamp, y: int)
    requires 1 <= s.month <= 12 && 1 <= s.day <= MonthLength(s.month, y) && ClockOk(s)
    ensures var (t, z) := SecondLater(s, y);
            && 1 <= t.month <= 12 && 1 <= t.day <= MonthLength(t.month, z) && ClockOk(t)
            && At(t, z) == At(s, y) + 1_000_000_000
    ensures At(Stamp(1, 1, 0, 0, 0), 1970) == 719162 * NS_PER_DAY
  {
    NextYear(y);
    WholeYear(y);
  }

  /* ---------- The inference ---------- */

  /** The three candidates that `time.ParseInLocation` gives, or None for an error. */
  function Candidates(s: Stamp, baseYear: int): (c: seq<Option<int>>)
    ensures |c| == 3
  {
    [Candidate(s, baseYear - 1), Candidate(s, baseYear), Candidate(s, baseYear + 1)]
  }

  function Candidate(s: Stamp, y: int): Option<int> {
    if Parses(s, y) then Some(At(s, y)) else None
  }

  /** The loop over the candidates: every one must parse, the first of the nearest wins. */
  method NearestCandidate(candidates: seq<Option<int>>, base: int) returns (best: Option<nat>)
    requires |candidates| > 0
    ensures best.None? <==> exists i :: 0 <= i < |candidates| && candidates[i].None?
    ensures best.Some? ==>
              && best.value < |candidates|
              && (forall i :: 0 <= i < |candidates| ==>
                    Abs(candidates[best.value].value - base) <= Abs(candidates[i].value - base))
              && (forall i :: 0 <= i < best.value ==>
                    Abs(candidates[best.value].value - base) < Abs(candidates[i].value - base))
  {
    var bestIndex, bestDelta := 0, 0;
    for n := 0 to |candidates|
      invariant forall i :: 0 <= i < n ==> candidates[i].Some?
      invariant n > 0 ==>
                  && bestIndex < n && bestDelta == Abs(candidates[bestIndex].value - base)
                  && (forall i :: 0 <= i < n ==> bestDelta <= Abs(candidates[i].value - base))
                  && (forall i :: 0 <= i < bestIndex ==> bestDelta < Abs(candidates[i].value - base))
    {
      if candidates[n].None? {
        return None;
      }
      var delta := Abs(candidates[n].value - base);
      if n == 0 || delta < bestDelta {
        bestIndex, bestDelta := n, delta;
      }
    }
    return Some(bestIndex);
  }

  /** The first of the nearest among three instants. */
  predicate FirstOfThree(base: int, before: int, here: int, after: int, best: int) {
    var d0, d1, d2 := Abs(before - base), Abs(here - base), Abs(after - base);
    match best
    case 0 => d0 <= d1 && d0 <= d2
    case 1 => d1 < d0 && d1 <= d2
    case 2 => d2 < d0 && d2 < d1
    case _ => false
  }

  /** The earliest of the nearest among the three years around the receive time. */
  predicate FirstNearest(s: Stamp, base: int, baseYear: int, best: int)
    requires 1 <= s.month <= 12
  {
    FirstOfThree(base, At(s, baseYear - 1), At(s, baseYear), At(s, baseYear + 1), best - (baseYear - 1))
  }

  /** The loop over three candidates. */
  method NearestOf(c: seq<Option<int>>, base: int) returns (best: Option<nat>)
    requires |c| == 3
    ensures best.Some? <==> c[0].Some? && c[1].Some? && c[2].Some?
    ensures best.Some? ==> FirstOfThree(base, c[0].value, c[1].value, c[2].value, best.value)
  {
    best := NearestCandidate(c, base);
  }

  method NearestOfThree(s: Stamp, base: int, baseYear: int) returns (result: Inferred)
    requires InYear(base, baseYear)
    ensures result.ParseError? <==>
              !(Parses(s, baseYear - 1) && Parses(s, baseYear) && Parses(s, baseYear + 1))
    ensures result.Found? ==>
              1 <= s.month <= 12 && result.instant == At(s, result.year) && FirstNearest(s, base, baseYear, result.year)
  {
    var candidates := Candidates(s, baseYear);
    var best := NearestOf(candidates, base);
    if best.None? {
      return ParseError;
    }
    return Found(baseYear - 1 + best.value, candidates[best.value].value);
  }

  /** A year further away than the three tried is further away in time. */
  lemma FarYears(s: Stamp, base: int, baseYear: int, y: int)
    requires EveryYear(s) && InYear(base, baseYear)
    ensures y < baseYear - 1 ==> At(s, y) < At(s, baseYear - 1) < base
    ensures y > baseYear + 1 ==> base < At(s, baseYear + 1) <= At(s, y)
  {
    Around(s, base, baseYear);
    if y < baseYear - 1 {
      EarlierYear(s, y, baseYear - 1);
    } else if y > baseYear + 1 {
      AtGrows(s, baseYear + 1, y);
    }
  }

  lemma EarlierYear(s: Stamp, y: int, z: int)
    requires EveryYear(s) && y < z
    ensures At(s, y) < At(s, z)
  {
    Gap(s, y);
    AtGrows(s, y + 1, z);
  }

  /** One of three instants around a point, at most 366 days apart, is within 183 days. */
  lemma Half(base: int, before: int, here: int, after: int, best: int)
    requires before < base < after
    requires here - before <= 366 * NS_PER_DAY && after - here <= 366 * NS_PER_DAY
    requires FirstOfThree(base, before, here, after, best)
    ensures 2 * Abs(Chosen(before, here, after, best) - base) <= 366 * NS_PER_DAY
  {
  }

  lemma ChosenIs(s: Stamp, baseYear: int, best: int)
    requires 1 <= s.month <= 12 && baseYear - 1 <= best <= baseYear + 1
    ensures Chosen(At(s, baseYear - 1), At(s, baseYear), At(s, baseYear + 1), best - (baseYear - 1)) == At(s, best)
  {
  }

  /** The chosen year is nearest over all years, not only the three tried, and among equally
      near years it is the earliest. */
  lemma NearestIsGlobal(s: Stamp, base: int, baseYear: int, best: int, y: int)
    requires EveryYear(s) && InYear(base, baseYear) && FirstNearest(s, base, baseYear, best)
    ensures Abs(At(s, best) - base) <= Abs(At(s, y) - base)
    ensures y < best ==> Abs(At(s, best) - base) < Abs(At(s, y) - base)
  {
    if baseYear - 1 <= y <= baseYear + 1 {
      NearestOfTried(s, base, baseYear, best, y);
    } else {
      NearestOfOthers(s, base, baseYear, best, y);
    }
  }

  lemma NearestOfTried(s: Stamp, base: int, baseYear: int, best: int, y: int)
    requires EveryYear(s) && FirstNearest(s, base, baseYear, best) && baseYear - 1 <= y <= baseYear + 1
    ensures Abs(At(s, best) - base) <= Abs(At(s, y) - base)
    ensures y < best ==> Abs(At(s, best) - base) < Abs(At(s, y) - base)
  {
    var before, here, after := At(s, baseYear - 1), At(s, baseYear), At(s, baseYear + 1);
    ChosenIs(s, baseYear, best);
    ChosenIs(s, baseYear, y);
    NearIsNotNearer(base, before, here, after, best - (baseYear - 1), y - (baseYear - 1));
  }

  lemma NearestOfOthers(s: Stamp, base: int, baseYear: int, best: int, y: int)
    requires EveryYear(s) && InYear(base, baseYear)
    ensures FirstNearest(s, base, baseYear, best) && (y < baseYear - 1 || y > baseYear + 1) ==>
              && Abs(At(s, best) - base) <= Abs(At(s, y) - base)
              && (y < best ==> Abs(At(s, best) - base) < Abs(At(s, y) - base))
  {
    if FirstNearest(s, base, baseYear, best) && (y < baseYear - 1 || y > baseYear + 1) {
      var before, here, after := At(s, baseYear - 1), At(s, baseYear), At(s, baseYear + 1);
      ChosenIs(s, baseYear, best);
      Around(s, base, baseYear);
      FarYears(s, base, baseYear, y);
      FarIsFarther(base, before, here, after, best - (baseYear - 1), At(s, y));
    }
  }

  lemma NearIsNotNearer(base: int, before: int, here: int, after: int, best: int, other: int)
    requires FirstOfThree(base, before, here, after, best) && 0 <= other <= 2
    ensures Abs(Chosen(before, here, after, best) - base) <= Abs(Chosen(before, here, after, other) - base)
    ensures other < best ==>
              Abs(Chosen(before, here, after, best) - base) < Abs(Chosen(before, here, after, other) - base)
  {
  }

  /** One of three instants. */
  function Chosen(before: int, here: int, after: int, best: int): int {
    if best == 0 then before else if best == 1 then here else after
  }

  lemma FarIsFarther(base: int, before: int, here: int, after: int, best: int, far: int)
    requires FirstOfThree(base, before, here, after, best)
    requires before < base < after && (far < before || after <= far)
    ensures Abs(Chosen(before, here, after, best) - base) <= Abs(far - base)
    ensures far < before ==> Abs(Chosen(before, here, after, best) - base) < Abs(far - base)
  {
  }

  /** It is at most 183 days away. */
  lemma NearestIsClose(s: Stamp, base: int, baseYear: int, best: int)
    requires EveryYear(s) && InYear(base, baseYear) && FirstNearest(s, base, baseYear, best)
    ensures 2 * Abs(At(s, best) - base) <= 366 * NS_PER_DAY
  {
    Around(s, base, baseYear);
    Gap(s, baseYear - 1);
    Gap(s, baseYear);
    ChosenIs(s, baseYear, best);
    Half(base, At(s, baseYear - 1), At(s, baseYear), At(s, baseYear + 1), best - (baseYear - 1));
  }

  /** The candidates of the neighbouring years lie on both sides. */
  lemma Around(s: Stamp, base: int, baseYear: int)
    requires EveryYear(s) && InYear(base, baseYear)
    ensures At(s, baseYear - 1) < base < At(s, baseYear + 1)
  {
    EveryYearHasIt(s, baseYear - 1);
    EveryYearHasIt(s, baseYear + 1);
    AtInYear(s, baseYear - 1);
    AtInYear(s, baseYear + 1);
  }

  /** Every date but February 29 is inferred, within the years of four digits; February 29 is
      always rejected, because three years in a row are never all leap years. */
  lemma InferredIff(s: Stamp, y: int)
    ensures (Parses(s, y - 1) && Parses(s, y) && Parses(s, y + 1)) <==> (EveryYear(s) && 1001 <= y <= 9998)
  {
    if EveryYear(s) {
      EveryYearHasIt(s, y - 1);
      EveryYearHasIt(s, y);
      EveryYearHasIt(s, y + 1);
    }
  }

  /** Both together: what the loop returns for any stamp and any receive time. */
  method NearestRfc3164Time(s: Stamp, base: int, baseYear: int) returns (result: Inferred)
    requires InYear(base, baseYear)
    ensures result.Found? <==> EveryYear(s) && 1001 <= baseYear <= 9998
    ensures s.month == 2 && s.day == 29 ==> result.ParseError?
    ensures result.Found? ==>
              && result.instant == At(s, result.year)
              && 2 * Abs(result.instant - base) <= 366 * NS_PER_DAY
              && (forall y :: Abs(result.instant - base) <= Abs(At(s, y) - base))
              && (forall y :: y < result.year ==> Abs(result.instant - base) < Abs(At(s, y) - base))
  {
    result := NearestOfThree(s, base, baseYear);
    InferredIff(s, baseYear);
    if result.Found? {
      forall y
        ensures Abs(result.instant - base) <= Abs(At(s, y) - base)
        ensures y < result.year ==> Abs(result.instant - base) < Abs(At(s, y) - base)
      {
        NearestIsGlobal(s, base, baseYear, result.year, y);
      }
      NearestIsClose(s, base, baseYear, result.year);
    }
  }
}
