/**
 The figures of a decision, each from the inputs: rates and lives at a location,
 what a vessel or a circuit is given for them, and what is asked for where nothing
 is decided (backend/engineering/assessment.py, backend/engineering/formulas.py).
 */
module AssessmentFigures {
  import opened Wrappers
  import opened Calendar
  import opened Rounding
  import opened Assessment

  // --- one location --------------------------------------------------------

  /** Every thickness and span one location needs, each a usable value and each span positive. */
  ghost predicate FullyRead(wall: Wall, r: Reading)
  {
    && IsKnown(r.previous) && IsKnown(r.current) && IsKnown(wall.nominal) && IsKnown(wall.tMin)
    && IsKnown(wall.between) && wall.between.value.value > 0.0
    && IsKnown(wall.inService) && wall.inService.value.value > 0.0
  }

  /**
   A location is computed in full exactly when it is fully read. Its rate is the higher of the loss since the last
   reading and the loss since it was new, each per year; its life is what is left above t-min at that rate, unlimited
   where nothing is lost.
   */
  lemma LocationFigures(a: Arithmetic, wall: Wall, r: Reading)
    ensures Chain(a, wall, r).complete <==> FullyRead(wall, r)
    ensures Chain(a, wall, r).location == r.location && Chain(a, wall, r).current == r.current
    ensures FullyRead(wall, r) ==>
              var row, now := Chain(a, wall, r), r.current.value.value;
              var short := a.rate((r.previous.value.value - now) / wall.between.value.value);
              var long := a.rate((wall.nominal.value.value - now) / wall.inService.value.value);
              var rate := a.rate(if short < long then long else short);
              && row.rate == Some(rate)
              && (row.longGoverns <==> short < long)
              && (row.below <==> now < wall.tMin.value.value)
              && row.life == (if 0.0 < rate then Limited(a.life((now - wall.tMin.value.value) / rate)) else Unlimited)
  {
  }

  /** A span is counted between two dates where both are known and the second is later, and is the one stated where they are not both known. */
  ghost predicate Spans(a: Arithmetic, span: Option<Bound>, stated: Option<Bound>, from: Option<Day>, to: Option<Day>)
  {
    if from.None? || to.None? then span == stated
    else span == if DayNumber(from.value) < DayNumber(to.value)
                 then Some(Known(a.years((DayNumber(to.value) - DayNumber(from.value)) as real / 365.25))) else None
  }

  /**
   What a report gives every location: its thicknesses, the span from the last survey but one to the last, and the one
   from when it went into service to the last survey. Of a circuit no span is ever taken as stated.
   */
  lemma WallIs(a: Arithmetic, inputs: Inputs)
    ensures var wall := WallOf(a, inputs);
            && wall.nominal == inputs.nominal && wall.tMin == inputs.tMin
            && Spans(a, wall.between, inputs.yearsBetween, inputs.previousDate, inputs.currentDate)
            && Spans(a, wall.inService, inputs.yearsInService, inputs.inServiceDate, inputs.currentDate)
    ensures var wall := WallOf(a, Dated(inputs));
            && wall.nominal == inputs.nominal && wall.tMin == inputs.tMin
            && Spans(a, wall.between, None, inputs.previousDate, inputs.currentDate)
            && Spans(a, wall.inService, None, inputs.inServiceDate, inputs.currentDate)
  {
  }

  // --- a vessel ------------------------------------------------------------

  predicate Under(life: Life, years: real)
  {
    life.Limited? && life.years < years
  }

  /** What a vessel's governing location and the set below t-min decide. */
  ghost predicate VesselFiguresAre(a: Arithmetic, inputs: Inputs, d: Decision, r: Reading)
    requires d.Decided?
  {
    var low := d.below != [];
    var scheduled := inputs.currentDate.Some? && inputs.category.Some? && inputs.category.value.Recognised?;
    var spent := low || (d.life.Limited? && d.life.years <= 0.0);
    // The metal lost since the wall was new, in percent.
    && (d.loss == if IsKnown(inputs.nominal) && IsKnown(r.current) && inputs.nominal.value.value != 0.0
                  then Some(a.percent((inputs.nominal.value.value - r.current.value.value) / inputs.nominal.value.value * 100.0))
                  else None)
    // The severity band.
    && (d.severity.None? <==> IsWrong(inputs.cladding))
    && (d.severity.Some? ==>
          && (d.severity.value == High <==> low)
          && (d.severity.value == Medium <==> !low && (Under(d.life, 4.0) || (inputs.cladding.Some? && inputs.cladding.value.value > 20.0))))
    // What calls for a fitness-for-service assessment.
    && (ThinnerThanTMin in d.triggers <==> low)
    && (LifeUnderTwoYears in d.triggers <==> Under(d.life, 2.0))
    && (LossOverAQuarter in d.triggers <==> d.loss.Some? && d.loss.value > 25.0)
    // The next survey: none for a spent wall, half the interval under four years.
    && (d.schedule.Some? <==> scheduled)
    && (d.withdraw <==> low || (scheduled && spent))
    && (scheduled && spent ==> d.schedule.value == Schedule(true, None, None))
    && (scheduled && !spent ==>
          var months := if Under(d.life, 4.0) then inputs.category.value.months / 2 else inputs.category.value.months;
          d.schedule.value == Schedule(false, Some(AddMonths(inputs.currentDate.value, months)), Some(months)))
  }

  /** When an interim pressure limit is judged, and what it comes to. */
  ghost predicate InterimIs(a: Arithmetic, inputs: Inputs, d: Decision)
    requires d.Decided?
  {
    && (d.interim.Some? <==>
          && !d.withdraw && d.triggers != {} && IsKnown(inputs.operating) && IsKnown(inputs.mawp)
          && a.pressure(inputs.mawp.value.value) > 0.0)
    && (d.interim.Some? ==>
          (d.interim.value <==>
             a.pressure(inputs.operating.value.value) <= a.pressure(0.9 * a.pressure(inputs.mawp.value.value))))
  }

  lemma VerdictFigures(a: Arithmetic, inputs: Inputs, r: Reading, g: Row, below: seq<string>)
    requires g.current == r.current
    ensures var d := VesselVerdict(a, inputs, g, below);
            VesselFiguresAre(a, inputs, d, r) && InterimIs(a, inputs, d) && d.below == below && d.life == g.life
  {
  }

  /** Every figure of a decided vessel, from the reading that governs and the locations below t-min. */
  lemma VesselFigures(a: Arithmetic, inputs: Inputs) returns (r: Reading)
    requires VesselDecision(a, inputs).Decided?
    ensures var d, f := VesselDecision(a, inputs), RowOf(a, WallOf(a, inputs));
            && r in inputs.readings && f(r).complete && d.governing == r.location
            && d.life == f(r).life && d.rate == f(r).rate && d.longGoverns == f(r).longGoverns
            && (forall t :: t in inputs.readings && f(t).complete ==> !Less(f(t).life, d.life))
            && (forall x :: x in d.below <==> exists t :: t in inputs.readings && f(t).complete && f(t).below && t.location == x)
            && VesselFiguresAre(a, inputs, d, r) && InterimIs(a, inputs, d)
  {
    var f := RowOf(a, WallOf(a, inputs));
    VesselDecidedIff(a, inputs);
    ReadyIsDecided(a, f, inputs);
    var complete := Complete(RowsBy(f, inputs.readings));
    r := Governs(f, inputs.readings);
    LocationFigures(a, WallOf(a, inputs), r);
    VerdictFigures(a, inputs, r, Lowest(complete), BelowAt(complete));
    BelowOf(f, inputs.readings);
    LocationsAreKept(a, WallOf(a, inputs), inputs.readings);
  }

  lemma Governs(f: Reading -> Row, readings: seq<Reading>) returns (r: Reading)
    requires Complete(RowsBy(f, readings)) != []
    ensures r in readings && f(r).complete && f(r) == Lowest(Complete(RowsBy(f, readings)))
    ensures forall t :: t in readings && f(t).complete ==> !Less(f(t).life, f(r).life)
  {
    LowestOf(f, readings);
    r :| r in readings && f(r) == Lowest(Complete(RowsBy(f, readings)));
  }

  lemma LocationsAreKept(a: Arithmetic, wall: Wall, readings: seq<Reading>)
    ensures forall t :: t in readings ==> RowOf(a, wall)(t).location == t.location
  {
  }

  // --- the interim pressure ------------------------------------------------

  /** A pressure rounded to a millionth of a megapascal is off by at most half of one. */
  lemma PressureIsNear(f: real -> real, x: real)
    requires RoundsTo(f, 1000000.0)
    ensures -0.0000005 <= f(x) - x <= 0.0000005
  {
    assert InUnits(f(x), x, 1000000.0);
  }

  /**
   Under any rounding to six places an interim limit passes only an operating pressure of at most 0.9 of MAWP, give or
   take the rounding of the two pressures and of their limit, and fails only one above that.
   */
  lemma InterimPassesAtNineTenths(a: Arithmetic, inputs: Inputs)
    requires RoundsTo(a.pressure, 1000000.0)
    requires VesselDecision(a, inputs).Decided? && VesselDecision(a, inputs).interim.Some?
    ensures IsKnown(inputs.operating) && IsKnown(inputs.mawp)
    ensures var within, operating, mawp := VesselDecision(a, inputs).interim.value, inputs.operating.value.value, inputs.mawp.value.value;
            && (within ==> operating <= 0.9 * mawp + 0.00000145)
            && (!within ==> operating > 0.9 * mawp - 0.00000145)
  {
    var r := VesselFigures(a, inputs);
    var operating, mawp := inputs.operating.value.value, inputs.mawp.value.value;
    PressureIsNear(a.pressure, operating);
    PressureIsNear(a.pressure, mawp);
    PressureIsNear(a.pressure, 0.9 * a.pressure(mawp));
  }

  /** The same vessel at another operating pressure. */
  function Operated(inputs: Inputs, operating: real): Inputs
  {
    inputs.(operating := Some(Known(operating)))
  }

  lemma OperatingDecidesNothingElse(a: Arithmetic, inputs: Inputs, x: real, y: real)
    ensures VesselDecision(a, Operated(inputs, x)).Decided? <==> VesselDecision(a, Operated(inputs, y)).Decided?
    ensures VesselDecision(a, Operated(inputs, x)).Decided? ==>
              var d, e := VesselDecision(a, Operated(inputs, x)), VesselDecision(a, Operated(inputs, y));
              d == e.(interim := d.interim)
  {
    var one, two := Operated(inputs, x), Operated(inputs, y);
    assert WallOf(a, one) == WallOf(a, two);
    var rows := Rows(a, one);
    assert rows == Rows(a, two) && Gaps(one, rows) == Gaps(two, rows);
    if Gaps(one, rows) == [] && Complete(rows) != [] {
      VerdictsDifferInInterim(a, inputs, x, y, Lowest(Complete(rows)), BelowAt(Complete(rows)));
    }
  }

  lemma VerdictsDifferInInterim(a: Arithmetic, inputs: Inputs, x: real, y: real, g: Row, below: seq<string>)
    ensures var d, e := VesselVerdict(a, Operated(inputs, x), g, below), VesselVerdict(a, Operated(inputs, y), g, below);
            d == e.(interim := d.interim)
  {
  }

  lemma InterimOf(a: Arithmetic, inputs: Inputs)
    requires VesselDecision(a, inputs).Decided?
    ensures InterimIs(a, inputs, VesselDecision(a, inputs))
  {
    var r := VesselFigures(a, inputs);
  }

  /** A higher operating pressure never turns a failure into a pass, nor a lower one a pass into a failure. */
  lemma HigherPressureNeverPasses(a: Arithmetic, inputs: Inputs, x: real, y: real)
    requires forall u: real, v: real :: u <= v ==> a.pressure(u) <= a.pressure(v)
    requires x <= y && VesselDecision(a, Operated(inputs, x)).Decided?
    ensures var d, e := VesselDecision(a, Operated(inputs, x)), VesselDecision(a, Operated(inputs, y));
            && e.Decided? && (d.interim.Some? <==> e.interim.Some?)
            && (d.interim == Some(false) ==> e.interim == Some(false))
            && (e.interim == Some(true) ==> d.interim == Some(true))
  {
    OperatingDecidesNothingElse(a, inputs, x, y);
    InterimOf(a, Operated(inputs, x));
    InterimOf(a, Operated(inputs, y));
    assert a.pressure(x) <= a.pressure(y);
  }

  /** Rates and pressures are rounded to a millionth, lives to a hundredth, percentages and years to a tenth. */
  lemma FiguresAreRounded()
    ensures RoundsTo(Computed().rate, 1000000.0) && RoundsTo(Computed().pressure, 1000000.0)
    ensures RoundsTo(Computed().life, 100.0)
    ensures RoundsTo(Computed().percent, 10.0) && RoundsTo(Computed().years, 10.0)
  {
    RoundRounds(Computed().rate, 1000000.0);
    RoundRounds(Computed().life, 100.0);
    RoundRounds(Computed().percent, 10.0);
    RoundRounds(Computed().years, 10.0);
    RoundRounds(Computed().pressure, 1000000.0);
  }

  /** The rounding the formulas use keeps the order of pressures and stays within half a unit. */
  lemma ComputedPressuresKeepOrder()
    ensures RoundsTo(Computed().pressure, 1000000.0)
    ensures forall u: real, v: real :: u <= v ==> Computed().pressure(u) <= Computed().pressure(v)
  {
    RoundRounds(Computed().pressure, 1000000.0);
    forall u: real, v: real | u <= v
      ensures Computed().pressure(u) <= Computed().pressure(v)
    {
      RoundMonotone(u, v, 1000000.0);
    }
  }

  // --- a circuit -----------------------------------------------------------

  /** What a circuit's governing location and the set below t-min decide. */
  ghost predicate CircuitFiguresAre(inputs: Inputs, d: Decision)
    requires d.Decided?
  {
    var scheduled := d.life.Limited? && inputs.currentDate.Some? && IsKnown(inputs.classMax);
    && d.loss == None && d.severity == None && d.triggers == {} && d.interim == None
    && (d.schedule.Some? <==> scheduled)
    && (d.withdraw <==> d.below != [] || (scheduled && d.life.years <= 0.0))
    && (scheduled && d.life.years <= 0.0 ==> d.schedule.value == Schedule(true, None, None))
    // The next measurement after half the life or the class maximum, whichever is less, in whole months.
    && (scheduled && d.life.years > 0.0 ==>
          exists months: int ::
            && months as real <= 6.0 * d.life.years && months as real <= 12.0 * inputs.classMax.value.value
            && (6.0 * d.life.years < months as real + 1.0 || 12.0 * inputs.classMax.value.value < months as real + 1.0)
            && d.schedule.value == Schedule(false, Some(AddMonths(inputs.currentDate.value, months)), Some(months)))
  }

  lemma CircuitVerdictFigures(a: Arithmetic, inputs: Inputs, g: Row, below: seq<string>)
    ensures var d := PipingVerdict(a, inputs, g, below);
            CircuitFiguresAre(inputs, d) && d.below == below && d.life == g.life
  {
    var d := PipingVerdict(a, inputs, g, below);
    if d.schedule.Some? && d.life.years > 0.0 {
      var half, top := d.life.years / 2.0, inputs.classMax.value.value;
      var months := ((if half <= top then half else top) * 12.0).Floor;
      assert months as real <= 6.0 * d.life.years && months as real <= 12.0 * top;
    }
  }

  /** Every figure of a decided circuit. */
  lemma CircuitFigures(a: Arithmetic, inputs: Inputs) returns (r: Reading)
    requires PipingDecision(a, inputs).Decided?
    ensures var d, f := PipingDecision(a, inputs), RowOf(a, WallOf(a, Dated(inputs)));
            && r in inputs.readings && f(r).complete && d.governing == r.location
            && d.life == f(r).life && d.rate == f(r).rate && d.longGoverns == f(r).longGoverns
            && (forall t :: t in inputs.readings && f(t).complete ==> !Less(f(t).life, d.life))
            && (forall x :: x in d.below <==> exists t :: t in inputs.readings && f(t).complete && f(t).below && t.location == x)
            && CircuitFiguresAre(inputs, d)
  {
    var f := RowOf(a, WallOf(a, Dated(inputs)));
    PipingDecidedIff(a, inputs);
    ReadyCircuitIsDecided(a, f, inputs);
    var complete := Complete(RowsBy(f, inputs.readings));
    r := Governs(f, inputs.readings);
    LocationFigures(a, WallOf(a, Dated(inputs)), r);
    CircuitVerdictFigures(a, inputs, Lowest(complete), BelowAt(complete));
    BelowOf(f, inputs.readings);
    LocationsAreKept(a, WallOf(a, Dated(inputs)), inputs.readings);
  }

  // --- what is asked for ---------------------------------------------------

  /** What a location cannot be computed without, by name. */
  ghost predicate Lacks(wall: Wall, r: Reading, name: Name)
  {
    match name
    case TCurrent => r.current.None?
    case TPrevious => r.previous.None?
    case TNominal => wall.nominal.None?
    case TMin => wall.tMin.None?
    case YearsBetween => wall.between.None?
    case YearsInService => wall.inService.None?
    case _ => false
  }

  lemma LossLacks(
      a: Arithmetic, before: Option<Bound>, beforeName: Name, after: Option<Bound>, years: Option<Bound>, yearsName: Name, name: Name)
    ensures name in MissingOf(LossRate(a, before, beforeName, after, years, yearsName)) <==>
              (name == beforeName && before.None?) || (name == TCurrent && after.None?) || (name == yearsName && years.None?)
  {
  }

  lemma LaterLack(a: Arithmetic, short: Option<Bound>, long: Option<Bound>, current: Option<Bound>, tMin: Option<Bound>, rate: Option<Bound>, name: Name)
    requires name != ShortRate && name != LongRate && name != Rate
    ensures name !in MissingOf(Governing(a, short, long))
    ensures name in MissingOf(LifeLeft(a, current, tMin, rate)) <==> (name == TCurrent && current.None?) || (name == TMin && tMin.None?)
    ensures name in MissingOf(IsBelow(current, tMin)) <==> (name == TCurrent && current.None?) || (name == TMin && tMin.None?)
  {
  }

  lemma MissingIs(a: Arithmetic, wall: Wall, r: Reading, name: Name)
    requires name != ShortRate && name != LongRate && name != Rate
    ensures name in Chain(a, wall, r).missing <==> Lacks(wall, r, name)
  {
    var short := LossRate(a, r.previous, TPrevious, r.current, wall.between, YearsBetween);
    var long := LossRate(a, wall.nominal, TNominal, r.current, wall.inService, YearsInService);
    var governing := Governing(a, AsBound(short), AsBound(long));
    var rate := if governing.Done? then Some(Known(governing.value.0)) else None;
    LossLacks(a, r.previous, TPrevious, r.current, wall.between, YearsBetween, name);
    LossLacks(a, wall.nominal, TNominal, r.current, wall.inService, YearsInService, name);
    LaterLack(a, AsBound(short), AsBound(long), r.current, wall.tMin, rate, name);
    MissingParts(a, wall, r, name);
  }

  lemma MissingParts(a: Arithmetic, wall: Wall, r: Reading, name: Name)
    ensures var short := LossRate(a, r.previous, TPrevious, r.current, wall.between, YearsBetween);
            var long := LossRate(a, wall.nominal, TNominal, r.current, wall.inService, YearsInService);
            var governing := Governing(a, AsBound(short), AsBound(long));
            var rate := if governing.Done? then Some(Known(governing.value.0)) else None;
            name in Chain(a, wall, r).missing <==>
              || name in MissingOf(short) || name in MissingOf(long) || name in MissingOf(governing)
              || name in MissingOf(LifeLeft(a, r.current, wall.tMin, rate)) || name in MissingOf(IsBelow(r.current, wall.tMin))
  {
  }

  lemma {:induction false} AskedAre(gaps: seq<Gap>, row: Row, n: nat, g: Gap)
    requires n <= |ASKED|
    ensures g in Asked(gaps, row, n) <==>
              g in gaps || (g.Input? && exists k :: 0 <= k < n && ASKED[k] == g.name && g.name in row.missing)
    ensures NoneTwice(gaps) ==> NoneTwice(Asked(gaps, row, n))
  {
    if n > 0 {
      AskedAre(gaps, row, n - 1, g);
      AskedAre(gaps, row, n - 1, Input(ASKED[n - 1]));
    }
  }

  ghost predicate NoneTwice(gaps: seq<Gap>)
  {
    forall i, j :: 0 <= i < j < |gaps| ==> gaps[i] != gaps[j]
  }

  lemma {:induction false} AskedOfAllAre(gaps: seq<Gap>, rows: seq<Row>, g: Gap)
    ensures g in AskedOfAll(gaps, rows) <==>
              g in gaps || (g.Input? && g.name in ASKED && exists row :: row in rows && g.name in row.missing)
    ensures NoneTwice(gaps) ==> NoneTwice(AskedOfAll(gaps, rows))
  {
    if rows != [] {
      var n := |rows| - 1;
      AskedOfAllAre(gaps, rows[..n], g);
      AskedAre(AskedOfAll(gaps, rows[..n]), rows[n], |ASKED|, g);
      assert rows == rows[..n] + [rows[n]];
      assert g.Input? ==> (g.name in ASKED <==> exists k :: 0 <= k < |ASKED| && ASKED[k] == g.name);
    }
  }

  lemma {:induction false} ConfirmedAre(nominal: Option<Bound>, readings: seq<Reading>, g: Gap)
    ensures g in ToConfirm(nominal, readings) <==>
              g.Confirm? && exists r :: r in readings && Questioned(nominal, r) && r.location == g.location
  {
    if readings != [] {
      var n := |readings| - 1;
      ConfirmedAre(nominal, readings[..n], g);
      assert readings == readings[..n] + [readings[n]];
    }
  }

  /** A reading thicker than the wall has been: above both its earlier reading and nominal. */
  ghost predicate Impossible(inputs: Inputs, r: Reading)
  {
    && IsKnown(inputs.nominal) && IsKnown(r.current) && IsKnown(r.previous)
    && r.previous.value.value < r.current.value.value && inputs.nominal.value.value < r.current.value.value
  }

  lemma StatedAre(inputs: Inputs, g: Gap)
    ensures g in Stated(inputs) <==>
              || (g == NominalThickness && inputs.nominal.None?)
              || (g == MinimumThickness && inputs.tMin.None?)
              || (g == Readings && inputs.readings == [])
    ensures NoneTwice(Stated(inputs))
  {
  }

  lemma InputIsAskedIff(a: Arithmetic, wall: Wall, readings: seq<Reading>, name: Name)
    ensures (name in ASKED && exists row :: row in RowsBy(RowOf(a, wall), readings) && name in row.missing) <==>
              exists r :: r in readings && Lacks(wall, r, name)
  {
    RowsMissing(a, wall, readings, name);
  }

  /** What stands in the way of a decision: what the report leaves out, what a location lacks, and the readings a person must confirm. */
  lemma GapsAre(a: Arithmetic, inputs: Inputs, wall: Wall, g: Gap)
    ensures g in Gaps(inputs, RowsBy(RowOf(a, wall), inputs.readings)) <==>
              || (g == NominalThickness && inputs.nominal.None?)
              || (g == MinimumThickness && inputs.tMin.None?)
              || (g == Readings && inputs.readings == [])
              || (g.Input? && exists r :: r in inputs.readings && Lacks(wall, r, g.name))
              || (g.Confirm? && exists r :: r in inputs.readings && Impossible(inputs, r) && r.location == g.location)
    ensures NoneTwice(AskedOfAll(Stated(inputs), RowsBy(RowOf(a, wall), inputs.readings)))
  {
    var rows := RowsBy(RowOf(a, wall), inputs.readings);
    GapsOf(inputs, rows, g);
    if g.Input? {
      InputIsAskedIff(a, wall, inputs.readings, g.name);
    }
  }

  lemma GapsOf(inputs: Inputs, rows: seq<Row>, g: Gap)
    ensures g in Gaps(inputs, rows) <==>
              || (g == NominalThickness && inputs.nominal.None?)
              || (g == MinimumThickness && inputs.tMin.None?)
              || (g == Readings && inputs.readings == [])
              || (g.Input? && g.name in ASKED && exists row :: row in rows && g.name in row.missing)
              || (g.Confirm? && exists r :: r in inputs.readings && Impossible(inputs, r) && r.location == g.location)
    ensures NoneTwice(AskedOfAll(Stated(inputs), rows))
  {
    StatedAre(inputs, g);
    AskedOfAllAre(Stated(inputs), rows, g);
    ConfirmedAre(inputs.nominal, inputs.readings, g);
  }

  lemma SomeRowMisses(f: Reading -> Row, readings: seq<Reading>, name: Name)
    ensures (exists row :: row in RowsBy(f, readings) && name in row.missing) <==>
              exists r :: r in readings && name in f(r).missing
  {
    RowsOfReadings(f, readings);
  }

  lemma AskedForIff(name: Name)
    ensures name in ASKED <==> name != ShortRate && name != LongRate && name != Rate
  {
    assert ASKED[0] == TCurrent && ASKED[1] == TMin && ASKED[2] == TNominal && ASKED[3] == TPrevious;
    assert ASKED[4] == YearsBetween && ASKED[5] == YearsInService;
  }

  lemma RowsMissing(a: Arithmetic, wall: Wall, readings: seq<Reading>, name: Name)
    ensures name in ASKED ==>
              ((exists row :: row in RowsBy(RowOf(a, wall), readings) && name in row.missing) <==>
                 exists r :: r in readings && Lacks(wall, r, name))
    ensures name !in ASKED ==> forall r :: r in readings ==> !Lacks(wall, r, name)
  {
    AskedForIff(name);
    if name in ASKED {
      SomeRowMisses(RowOf(a, wall), readings, name);
      forall r | r in readings
        ensures name in RowOf(a, wall)(r).missing <==> Lacks(wall, r, name)
      {
        MissingIs(a, wall, r, name);
      }
    }
  }

  // --- what was refused ----------------------------------------------------

  /** Stated, but of the wrong kind for the formula, or a span that is not positive. */
  ghost predicate SpanUnusable(years: Option<Bound>)
  {
    years.Some? && !(years.value.Known? && years.value.value > 0.0)
  }

  lemma LossRefusedIff(
      a: Arithmetic, before: Option<Bound>, beforeName: Name, after: Option<Bound>, years: Option<Bound>, yearsName: Name)
    ensures LossRate(a, before, beforeName, after, years, yearsName).Refused? <==>
              && before.Some? && after.Some? && years.Some?
              && (IsWrong(before) || IsWrong(after) || SpanUnusable(years))
  {
  }

  lemma LaterRefusedIff(a: Arithmetic, short: Outcome<real>, long: Outcome<real>, current: Option<Bound>, tMin: Option<Bound>, rate: Option<real>)
    ensures !Governing(a, AsBound(short), AsBound(long)).Refused?
    ensures LifeLeft(a, current, tMin, if rate.Some? then Some(Known(rate.value)) else None).Refused? <==>
              current.Some? && tMin.Some? && rate.Some? && (IsWrong(current) || IsWrong(tMin))
    ensures IsBelow(current, tMin).Refused? <==> current.Some? && tMin.Some? && (IsWrong(current) || IsWrong(tMin))
  {
  }

  lemma InFive(f: Formula, a: seq<Formula>, b: seq<Formula>, c: seq<Formula>, d: seq<Formula>, e: seq<Formula>)
    ensures f in a + b + c + d + e <==> f in a || f in b || f in c || f in d || f in e
  {
  }

  lemma RefusedOfIs<T>(f: Formula, g: Formula, o: Outcome<T>)
    ensures f in RefusedOf(g, o) <==> f == g && o.Refused?
  {
  }

  lemma RefusedParts(a: Arithmetic, wall: Wall, r: Reading, f: Formula)
    ensures var short := LossRate(a, r.previous, TPrevious, r.current, wall.between, YearsBetween);
            var long := LossRate(a, wall.nominal, TNominal, r.current, wall.inService, YearsInService);
            var governing := Governing(a, AsBound(short), AsBound(long));
            var rate := if governing.Done? then Some(governing.value.0) else None;
            && Chain(a, wall, r).rate == rate
            && (f in Chain(a, wall, r).refused <==>
                  match f
                  case ShortTermRate => short.Refused?
                  case LongTermRate => long.Refused?
                  case GoverningRate => governing.Refused?
                  case RemainingLife => LifeLeft(a, r.current, wall.tMin, if rate.Some? then Some(Known(rate.value)) else None).Refused?
                  case BelowTMin => IsBelow(r.current, wall.tMin).Refused?)
  {
    var short := LossRate(a, r.previous, TPrevious, r.current, wall.between, YearsBetween);
    var long := LossRate(a, wall.nominal, TNominal, r.current, wall.inService, YearsInService);
    var governing := Governing(a, AsBound(short), AsBound(long));
    var rate := if governing.Done? then Some(governing.value.0) else None;
    var life := LifeLeft(a, r.current, wall.tMin, if rate.Some? then Some(Known(rate.value)) else None);
    var below := IsBelow(r.current, wall.tMin);
    RefusedOfIs(f, ShortTermRate, short);
    RefusedOfIs(f, LongTermRate, long);
    RefusedOfIs(f, GoverningRate, governing);
    RefusedOfIs(f, RemainingLife, life);
    RefusedOfIs(f, BelowTMin, below);
    InFive(f, RefusedOf(ShortTermRate, short), RefusedOf(LongTermRate, long), RefusedOf(GoverningRate, governing),
           RefusedOf(RemainingLife, life), RefusedOf(BelowTMin, below));
  }

  /** A formula is refused where all it needs is stated and something of it cannot be used; the governing rate never is. */
  lemma RefusedAre(a: Arithmetic, wall: Wall, r: Reading, f: Formula)
    ensures f in Chain(a, wall, r).refused <==>
              match f
              case ShortTermRate =>
                && r.previous.Some? && r.current.Some? && wall.between.Some?
                && (IsWrong(r.previous) || IsWrong(r.current) || SpanUnusable(wall.between))
              case LongTermRate =>
                && wall.nominal.Some? && r.current.Some? && wall.inService.Some?
                && (IsWrong(wall.nominal) || IsWrong(r.current) || SpanUnusable(wall.inService))
              case GoverningRate => false
              case RemainingLife =>
                && r.current.Some? && wall.tMin.Some? && Chain(a, wall, r).rate.Some?
                && (IsWrong(r.current) || IsWrong(wall.tMin))
              case BelowTMin => r.current.Some? && wall.tMin.Some? && (IsWrong(r.current) || IsWrong(wall.tMin))
  {
    var short := LossRate(a, r.previous, TPrevious, r.current, wall.between, YearsBetween);
    var long := LossRate(a, wall.nominal, TNominal, r.current, wall.inService, YearsInService);
    RefusedParts(a, wall, r, f);
    LossRefusedIff(a, r.previous, TPrevious, r.current, wall.between, YearsBetween);
    LossRefusedIff(a, wall.nominal, TNominal, r.current, wall.inService, YearsInService);
    LaterRefusedIff(a, short, long, r.current, wall.tMin, Chain(a, wall, r).rate);
  }

  lemma AsGapsAre(fs: seq<Formula>, g: Gap)
    ensures g in AsGaps(fs) <==> g.NotComputed? && g.formula in fs
  {
    if g.NotComputed? && g.formula in fs {
      var k :| 0 <= k < |fs| && fs[k] == g.formula;
      assert AsGaps(fs)[k] == g;
    }
  }

  lemma {:induction false} AllRefusedOf(rows: seq<Row>, g: Gap)
    ensures g in AllRefused(rows) <==> g.NotComputed? && exists row :: row in rows && g.formula in row.refused
  {
    if rows != [] {
      var n := |rows| - 1;
      AllRefusedOf(rows[..n], g);
      AsGapsAre(rows[n].refused, g);
      assert rows == rows[..n] + [rows[n]];
    }
  }

  lemma AllRefusedAre(f: Reading -> Row, readings: seq<Reading>, g: Gap)
    ensures g in AllRefused(RowsBy(f, readings)) <==>
              g.NotComputed? && exists r :: r in readings && g.formula in f(r).refused
  {
    AllRefusedOf(RowsBy(f, readings), g);
    RowsOfReadings(f, readings);
  }

  /** A vessel that is not decided is told what stands in the way, or where nothing does, which formulas were refused; a circuit only the former. */
  lemma WithheldSays(a: Arithmetic, inputs: Inputs, g: Gap)
    requires VesselDecision(a, inputs).Withheld?
    ensures var f := RowOf(a, WallOf(a, inputs));
            var gaps := Gaps(inputs, RowsBy(f, inputs.readings));
            g in VesselDecision(a, inputs).gaps <==>
              if gaps != [] then g in gaps else g.NotComputed? && exists r :: r in inputs.readings && g.formula in f(r).refused
  {
    AllRefusedAre(RowOf(a, WallOf(a, inputs)), inputs.readings, g);
  }

  lemma CircuitWithheldSays(a: Arithmetic, inputs: Inputs, g: Gap)
    requires PipingDecision(a, inputs).Withheld?
    ensures g in PipingDecision(a, inputs).gaps <==> g in Gaps(inputs, RowsBy(RowOf(a, WallOf(a, Dated(inputs))), inputs.readings))
  {
  }
}
