/**
 The due dates that follow from a remaining life, as the expected answers of the
 demonstration work them out (scripts/seed_demo_data.py). Thicknesses, rates and
 lives are exact reals.
 */
module DueDates {
  import opened Calendar
  import opened Rounding

  // --- rates, lives and due dates ------------------------------------------

  /** A remaining life; without measurable corrosion there is no limit. */
  datatype Life = Limited(years: real) | Unlimited

  predicate AtMost(x: Life, y: Life)
  {
    y.Unlimited? || (x.Limited? && x.years <= y.years)
  }

  datatype RateRow = RateRow(short: real, long: real, rate: real, life: Life, belowTMin: bool)

  function LifeAt(current: real, tMin: real, rate: real): Life
  {
    if rate > 0.0 then Limited((current - tMin) / rate) else Unlimited
  }

  /** `_rate_row`, before anything is rounded for display. */
  function RateRowOf(previous: real, current: real, nominal: real, tMin: real, between: real, inService: real): RateRow
    requires between != 0.0 && inService != 0.0
  {
    var short, long := (previous - current) / between, (nominal - current) / inService;
    var governing := if long > short then long else short;
    RateRow(short, long, governing, LifeAt(current, tMin, governing), current < tMin)
  }

  lemma FasterIsSooner(margin: real, slow: real, fast: real)
    requires 0.0 < slow <= fast
    ensures margin >= 0.0 ==> margin / fast <= margin / slow
    ensures margin <= 0.0 ==> margin / slow <= margin / fast
    ensures slow < fast && margin != 0.0 ==> margin / fast != margin / slow
  {
    var x, y := margin / fast, margin / slow;
    assert x * fast == margin && y * slow == margin;
    if margin >= 0.0 && x > y {
      ProductsOrder(y, x, slow, fast);
    } else if margin <= 0.0 && y > x {
      ProductsOrderDown(x, y, slow, fast);
    }
    if slow < fast && x == y {
      assert x * (fast - slow) == x * fast - x * slow == 0.0;
      assert x == 0.0;
    }
  }

  /** Dividing by a larger rate can only shorten a positive margin. */
  lemma ProductsOrder(y: real, x: real, slow: real, fast: real)
    requires 0.0 < slow <= fast && y < x && 0.0 <= y * slow
    ensures y * slow < x * fast
  {
    assert y >= 0.0;
    assert x * slow <= x * fast;
  }

  lemma ProductsOrderDown(x: real, y: real, slow: real, fast: real)
    requires 0.0 < slow <= fast && x < y && y * slow <= 0.0
    ensures x * fast < y * slow
  {
    assert y <= 0.0;
    assert x * fast <= x * slow;
  }

  /**
   The life from the higher of the two rates is at most the one from the short-term rate
   alone, exactly when the reading is at or above t-min or the short-term rate governs anyway.
   */
  lemma GoverningLifeIsShorterIff(previous: real, current: real, nominal: real, tMin: real, between: real, inService: real)
    requires between != 0.0 && inService != 0.0
    requires RateRowOf(previous, current, nominal, tMin, between, inService).short > 0.0
    ensures var row := RateRowOf(previous, current, nominal, tMin, between, inService);
            AtMost(row.life, LifeAt(current, tMin, row.short)) <==> !row.belowTMin || row.long <= row.short
  {
    var row := RateRowOf(previous, current, nominal, tMin, between, inService);
    FasterIsSooner(current - tMin, row.short, row.rate);
  }

  /** Months until the next measurement: half the remaining life, up to the class maximum. */
  function IntervalMonths(lifeYears: real, classMaxYears: real): int
  {
    ((if lifeYears / 2.0 <= classMaxYears then lifeYears / 2.0 else classMaxYears) * 12.0).Floor
  }

  /** The whole months in half the life or in the class maximum, whichever is shorter. */
  lemma IntervalIs(lifeYears: real, classMaxYears: real, months: int)
    ensures months <= IntervalMonths(lifeYears, classMaxYears) <==> months as real <= 6.0 * lifeYears && months as real <= 12.0 * classMaxYears
  {
  }

  lemma FloorMonotone(x: real, y: real)
    requires x <= y
    ensures x.Floor <= y.Floor
  {
  }

  lemma LongerLifeLongerInterval(x: real, y: real, classMaxYears: real)
    requires x <= y
    ensures IntervalMonths(x, classMaxYears) <= IntervalMonths(y, classMaxYears)
  {
    var p := if x / 2.0 <= classMaxYears then x / 2.0 else classMaxYears;
    var q := if y / 2.0 <= classMaxYears then y / 2.0 else classMaxYears;
    FloorMonotone(p * 12.0, q * 12.0);
  }

  /**
   A circuit at or above t-min that is thinning now: the due date from the higher of its two
   rates is never later than the one from the short-term rate alone.
   */
  lemma HigherRateIsNeverDueLater(
      surveyed: Date, previous: real, current: real, nominal: real, tMin: real, between: real, inService: real, classMaxYears: real)
    requires Valid(surveyed) && between != 0.0 && inService != 0.0 && current >= tMin
    requires RateRowOf(previous, current, nominal, tMin, between, inService).short > 0.0
    ensures var row := RateRowOf(previous, current, nominal, tMin, between, inService);
            var shortOnly := LifeAt(current, tMin, row.short);
            && row.life.Limited? && shortOnly.Limited?
            && NotAfter(AddMonths(surveyed, IntervalMonths(row.life.years, classMaxYears)),
                        AddMonths(surveyed, IntervalMonths(shortOnly.years, classMaxYears)))
  {
    var row := RateRowOf(previous, current, nominal, tMin, between, inService);
    var shortOnly := LifeAt(current, tMin, row.short);
    GoverningLifeIsShorterIff(previous, current, nominal, tMin, between, inService);
    LongerLifeLongerInterval(row.life.years, shortOnly.years, classMaxYears);
    var m, n := IntervalMonths(row.life.years, classMaxYears), IntervalMonths(shortOnly.years, classMaxYears);
    StrictInMonths(surveyed, m, n);
  }

  /** Below t-min it turns round: the higher rate gives the later of two dates already past. */
  lemma BelowTMinTheDatesTurnRound()
    ensures var row := RateRowOf(11.0, 9.0, 30.0, 10.0, 1.0, 2.0);
            && row.belowTMin && row.short == 2.0 && row.long == 10.5
            && IntervalMonths(row.life.years, 10.0) == -1
            && IntervalMonths(LifeAt(9.0, 10.0, row.short).years, 10.0) == -3
            && Before(AddMonths(Date(2026, 5, 31), -3), AddMonths(Date(2026, 5, 31), -1))
  {
    var row := RateRowOf(11.0, 9.0, 30.0, 10.0, 1.0, 2.0);
    assert row.short == 2.0 && row.long == 10.5 && row.life == Limited(-1.0 / 10.5);
    assert -1.0 < (-1.0 / 10.5) / 2.0 * 12.0 < 0.0;
    assert LifeAt(9.0, 10.0, 2.0) == Limited(-0.5);
    assert (-0.5 / 2.0) * 12.0 == -3.0;
    StrictInMonths(Date(2026, 5, 31), -3, -1);
  }

  /** `round(_, 4)`, as rates are displayed. */
  function Rounded(x: real): real
  {
    Round(x, 10000.0)
  }

  /**
   The worked example divides by the short-term rate as it is displayed. The comparison then holds
   exactly when rounding has not carried that rate above the governing one.
   */
  lemma DisplayedRateComparesIff(previous: real, current: real, nominal: real, tMin: real, between: real, inService: real)
    requires between != 0.0 && inService != 0.0 && current > tMin
    requires RateRowOf(previous, current, nominal, tMin, between, inService).short > 0.0
    requires Rounded(RateRowOf(previous, current, nominal, tMin, between, inService).short) > 0.0
    ensures var row := RateRowOf(previous, current, nominal, tMin, between, inService);
            AtMost(row.life, LifeAt(current, tMin, Rounded(row.short))) <==> Rounded(row.short) <= row.rate
  {
    var row := RateRowOf(previous, current, nominal, tMin, between, inService);
    var shown := Rounded(row.short);
    if shown <= row.rate {
      FasterIsSooner(current - tMin, shown, row.rate);
    } else {
      FasterIsSooner(current - tMin, row.rate, shown);
    }
  }

  /** A rate displayed as zero leaves nothing to divide by: up to half a unit of the last place. */
  lemma DisplayedAsZeroIff(rate: real)
    requires rate >= 0.0
    ensures Rounded(rate) == 0.0 <==> rate <= 0.00005
  {
    RoundPositiveIff(rate, 10000.0);
    RoundInUnits(rate, 10000.0);
  }

  // --- the survey history --------------------------------------------------

  /** A category's interval, halved when less than four years are left (`assess_history`). */
  function SurveyMonths(full: nat, life: Life): (months: nat)
    ensures months <= full
  {
    if life.Limited? && life.years < 4.0 then full / 2 else full
  }

  /** Less life left never moves a survey back; under four years the interval is half the category's, to the month below, else all of it. */
  lemma LessLifeNeverLaterSurvey(last: Date, full: nat, x: Life, y: Life)
    requires Valid(last) && AtMost(x, y)
    ensures NotAfter(AddMonths(last, SurveyMonths(full, x)), AddMonths(last, SurveyMonths(full, y)))
    ensures NotAfter(last, AddMonths(last, SurveyMonths(full, x)))
    ensures var months := SurveyMonths(full, x);
            if x.Limited? && x.years < 4.0 then 2 * months <= full <= 2 * months + 1 else months == full
  {
    StrictInMonths(last, SurveyMonths(full, x), SurveyMonths(full, y));
    StrictInMonths(last, 0, SurveyMonths(full, x));
    NoMonthsNoChange(last);
  }
}
