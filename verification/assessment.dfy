/**
 The asset-integrity decision: rates and remaining life at every location, the
 location that governs, and what follows from it (backend/engineering/assessment.py
 over the formulas it evaluates). Figures are exact reals; how a formula rounds its
 result is a parameter, and `Computed` is the rounding the formulas use.
 */
module Assessment {
  import opened Wrappers
  import opened Calendar
  import opened Rounding

  /** A value read from the evidence: usable, or of the wrong kind for its formula. */
  datatype Bound = Known(value: real) | Wrong

  datatype Reading = Reading(location: string, previous: Option<Bound>, current: Option<Bound>)

  /** A reading with both thicknesses in millimetres. */
  function At(location: string, previous: real, current: real): Reading
  {
    Reading(location, Some(Known(previous)), Some(Known(current)))
  }

  datatype Category = Recognised(months: nat) | Unrecognised

  type Day = d: Date | Valid(d) witness Date(1, 1, 1)

  datatype Inputs = Inputs(
    readings: seq<Reading>,
    nominal: Option<Bound>,
    tMin: Option<Bound>,
    yearsBetween: Option<Bound>,
    yearsInService: Option<Bound>,
    previousDate: Option<Day>,
    currentDate: Option<Day>,
    inServiceDate: Option<Day>,
    cladding: Option<Bound>,
    category: Option<Category>,
    classMax: Option<Bound>,
    operating: Option<Bound>,
    mawp: Option<Bound>)

  /** How each kind of figure is rounded. */
  datatype Arithmetic = Arithmetic(
    rate: real -> real, life: real -> real, percent: real -> real, years: real -> real, pressure: real -> real)

  /** Rates to six places, lives to two, percentages and years to one, pressures to six. */
  function Computed(): Arithmetic
  {
    Arithmetic((x: real) => Round(x, 1000000.0), (x: real) => Round(x, 100.0), (x: real) => Round(x, 10.0),
               (x: real) => Round(x, 10.0), (x: real) => Round(x, 1000000.0))
  }

  /** The parameters a formula can be missing. */
  datatype Name = TCurrent | TMin | TNominal | TPrevious | YearsBetween | YearsInService | ShortRate | LongRate | Rate

  datatype Outcome<T> = Done(value: T) | Lacking(names: set<Name>) | Refused

  datatype Formula = ShortTermRate | LongTermRate | GoverningRate | RemainingLife | BelowTMin

  /** A remaining life, unlimited where nothing corrodes. */
  datatype Life = Limited(years: real) | Unlimited

  datatype Row = Row(
    location: string, current: Option<Bound>, rate: Option<real>, longGoverns: bool, life: Life, below: bool,
    complete: bool, missing: set<Name>, refused: seq<Formula>)

  // --- the formulas --------------------------------------------------------

  function Absent(name: Name, b: Option<Bound>): set<Name>
  {
    if b.None? then {name} else {}
  }

  predicate IsWrong(b: Option<Bound>)
  {
    b.Some? && b.value.Wrong?
  }

  /** Metal lost per year between two thicknesses. */
  function LossRate(
      a: Arithmetic, before: Option<Bound>, beforeName: Name, after: Option<Bound>, years: Option<Bound>, yearsName: Name):
      Outcome<real>
  {
    var lacking := Absent(beforeName, before) + Absent(TCurrent, after) + Absent(yearsName, years);
    if lacking != {} then Lacking(lacking)
    else if IsWrong(before) || IsWrong(after) || IsWrong(years) || years.value.value <= 0.0 then Refused
    else Done(a.rate((before.value.value - after.value.value) / years.value.value))
  }

  function AsBound(o: Outcome<real>): Option<Bound>
  {
    if o.Done? then Some(Known(o.value)) else None
  }

  /** The higher of the two, and whether it is the long-term one. */
  function Governing(a: Arithmetic, short: Option<Bound>, long: Option<Bound>): Outcome<(real, bool)>
  {
    var lacking := Absent(ShortRate, short) + Absent(LongRate, long);
    if lacking != {} then Lacking(lacking)
    else if IsWrong(short) || IsWrong(long) then Refused
    else
      var s, l := short.value.value, long.value.value;
      Done((a.rate(if l > s then l else s), l > s))
  }

  function LifeLeft(a: Arithmetic, current: Option<Bound>, tMin: Option<Bound>, rate: Option<Bound>): Outcome<Life>
  {
    var lacking := Absent(TCurrent, current) + Absent(TMin, tMin) + Absent(Rate, rate);
    if lacking != {} then Lacking(lacking)
    else if IsWrong(current) || IsWrong(tMin) || IsWrong(rate) then Refused
    else if rate.value.value <= 0.0 then Done(Unlimited)
    else Done(Limited(a.life((current.value.value - tMin.value.value) / rate.value.value)))
  }

  function IsBelow(current: Option<Bound>, tMin: Option<Bound>): Outcome<bool>
  {
    var lacking := Absent(TCurrent, current) + Absent(TMin, tMin);
    if lacking != {} then Lacking(lacking)
    else if IsWrong(current) || IsWrong(tMin) then Refused
    else Done(current.value.value < tMin.value.value)
  }

  /** Years between two dates when both are known, else the years stated. */
  function YearsFrom(a: Arithmetic, stated: Option<Bound>, from: Option<Day>, to: Option<Day>): Option<Bound>
  {
    if from.Some? && to.Some? then
      var days := DayNumber(to.value) - DayNumber(from.value);
      if days <= 0 then None else Some(Known(a.years(days as real / 365.25)))
    else stated
  }

  function MissingOf<T>(o: Outcome<T>): set<Name>
  {
    if o.Lacking? then o.names else {}
  }

  function RefusedOf<T>(f: Formula, o: Outcome<T>): seq<Formula>
  {
    if o.Refused? then [f] else []
  }

  /** What every location of one report shares. */
  datatype Wall = Wall(nominal: Option<Bound>, tMin: Option<Bound>, between: Option<Bound>, inService: Option<Bound>)

  function WallOf(a: Arithmetic, inputs: Inputs): Wall
  {
    Wall(inputs.nominal, inputs.tMin,
         YearsFrom(a, inputs.yearsBetween, inputs.previousDate, inputs.currentDate),
         YearsFrom(a, inputs.yearsInService, inputs.inServiceDate, inputs.currentDate))
  }

  /** The chain of five formulas at one location. */
  function Chain(a: Arithmetic, wall: Wall, r: Reading): Row
  {
    var short := LossRate(a, r.previous, TPrevious, r.current, wall.between, YearsBetween);
    var long := LossRate(a, wall.nominal, TNominal, r.current, wall.inService, YearsInService);
    var governing := Governing(a, AsBound(short), AsBound(long));
    var rate := if governing.Done? then Some(governing.value.0) else None;
    var life := LifeLeft(a, r.current, wall.tMin, if rate.Some? then Some(Known(rate.value)) else None);
    var below := IsBelow(r.current, wall.tMin);
    Row(r.location, r.current, rate, governing.Done? && governing.value.1,
        if life.Done? then life.value else Unlimited,
        below.Done? && below.value,
        short.Done? && long.Done? && governing.Done? && life.Done? && below.Done?,
        MissingOf(short) + MissingOf(long) + MissingOf(governing) + MissingOf(life) + MissingOf(below),
        RefusedOf(ShortTermRate, short) + RefusedOf(LongTermRate, long) + RefusedOf(GoverningRate, governing)
          + RefusedOf(RemainingLife, life) + RefusedOf(BelowTMin, below))
  }

  function RowOf(a: Arithmetic, wall: Wall): Reading -> Row
  {
    (r: Reading) => Chain(a, wall, r)
  }

  function RowsBy(f: Reading -> Row, readings: seq<Reading>): (rows: seq<Row>)
    ensures |rows| == |readings|
    ensures forall i :: 0 <= i < |rows| ==> rows[i] == f(readings[i])
  {
    if readings == [] then [] else RowsBy(f, readings[..|readings| - 1]) + [f(readings[|readings| - 1])]
  }

  function Rows(a: Arithmetic, inputs: Inputs): seq<Row>
  {
    RowsBy(RowOf(a, WallOf(a, inputs)), inputs.readings)
  }

  function Complete(rows: seq<Row>): seq<Row>
  {
    if rows == [] then []
    else Complete(rows[..|rows| - 1]) + if rows[|rows| - 1].complete then [rows[|rows| - 1]] else []
  }

  function BelowAt(rows: seq<Row>): seq<string>
  {
    if rows == [] then []
    else BelowAt(rows[..|rows| - 1]) + if rows[|rows| - 1].below then [rows[|rows| - 1].location] else []
  }

  // --- what stands in the way ----------------------------------------------

  datatype Gap =
    | NominalThickness | MinimumThickness | Readings | Input(name: Name) | Confirm(location: string) | NotComputed(formula: Formula)

  /** In the order a row lists what it is missing; rates are never asked for. */
  const ASKED: seq<Name> := [TCurrent, TMin, TNominal, TPrevious, YearsBetween, YearsInService]

  function Asked(gaps: seq<Gap>, row: Row, n: nat): seq<Gap>
    requires n <= |ASKED|
  {
    if n == 0 then gaps
    else
      var before := Asked(gaps, row, n - 1);
      if ASKED[n - 1] in row.missing && Input(ASKED[n - 1]) !in before then before + [Input(ASKED[n - 1])] else before
  }

  function AskedOfAll(gaps: seq<Gap>, rows: seq<Row>): seq<Gap>
  {
    if rows == [] then gaps else Asked(AskedOfAll(gaps, rows[..|rows| - 1]), rows[|rows| - 1], |ASKED|)
  }

  function Stated(inputs: Inputs): seq<Gap>
  {
    (if inputs.nominal.None? then [NominalThickness] else [])
    + (if inputs.tMin.None? then [MinimumThickness] else [])
    + (if inputs.readings == [] then [Readings] else [])
  }

  predicate IsKnown(b: Option<Bound>)
  {
    b.Some? && b.value.Known?
  }

  /** Thicker than the wall has ever been, which corrosion cannot do. */
  predicate Questioned(nominal: Option<Bound>, r: Reading)
  {
    && IsKnown(nominal) && IsKnown(r.current) && IsKnown(r.previous)
    && r.current.value.value > r.previous.value.value && r.current.value.value > nominal.value.value
  }

  function ToConfirm(nominal: Option<Bound>, readings: seq<Reading>): seq<Gap>
  {
    if readings == [] then []
    else ToConfirm(nominal, readings[..|readings| - 1])
         + if Questioned(nominal, readings[|readings| - 1]) then [Confirm(readings[|readings| - 1].location)] else []
  }

  function Gaps(inputs: Inputs, rows: seq<Row>): seq<Gap>
  {
    AskedOfAll(Stated(inputs), rows) + ToConfirm(inputs.nominal, inputs.readings)
  }

  function AllRefused(rows: seq<Row>): seq<Gap>
  {
    if rows == [] then [] else AllRefused(rows[..|rows| - 1]) + AsGaps(rows[|rows| - 1].refused)
  }

  function AsGaps(fs: seq<Formula>): seq<Gap>
  {
    seq(|fs|, i requires 0 <= i < |fs| => NotComputed(fs[i]))
  }

  // --- the decision --------------------------------------------------------

  predicate Less(x: Life, y: Life)
  {
    x.Limited? && (y.Unlimited? || x.years < y.years)
  }

  /** `min`: the first row no other undercuts. */
  function Lowest(rows: seq<Row>): Row
    requires rows != []
  {
    var last := rows[|rows| - 1];
    if |rows| == 1 then last
    else
      var before := Lowest(rows[..|rows| - 1]);
      if Less(last.life, before.life) then last else before
  }

  datatype Severity = High | Medium | Low

  datatype Trigger = ThinnerThanTMin | LifeUnderTwoYears | LossOverAQuarter

  /** What a schedule formula returns. */
  datatype Schedule = Schedule(withdraw: bool, due: Option<Day>, months: Option<int>)

  datatype Decision =
    | Withheld(gaps: seq<Gap>)
    | Decided(
        governing: string, rate: Option<real>, longGoverns: bool, life: Life, below: seq<string>, loss: Option<real>,
        severity: Option<Severity>, triggers: set<Trigger>, schedule: Option<Schedule>, withdraw: bool,
        interim: Option<bool>)

  function LossAt(a: Arithmetic, nominal: Option<Bound>, current: Option<Bound>): Option<real>
  {
    if !IsKnown(nominal) || !IsKnown(current) || nominal.value.value == 0.0 then None
    else Some(a.percent((nominal.value.value - current.value.value) / nominal.value.value * 100.0))
  }

  function SeverityOf(anyBelow: bool, life: Life, cladding: Option<Bound>): Option<Severity>
  {
    if IsWrong(cladding) then None
    else if anyBelow then Some(High)
    else if life.Limited? && life.years < 4.0 then Some(Medium)
    else if cladding.Some? && cladding.value.value > 20.0 then Some(Medium)
    else Some(Low)
  }

  function TriggersOf(anyBelow: bool, life: Life, loss: Option<real>): set<Trigger>
  {
    (if anyBelow then {ThinnerThanTMin} else {})
    + (if life.Limited? && life.years < 2.0 then {LifeUnderTwoYears} else {})
    + (if loss.Some? && loss.value > 25.0 then {LossOverAQuarter} else {})
  }

  /** No survey is scheduled for a vessel at or below t-min. */
  function VesselSurvey(a: Arithmetic, inputs: Inputs, anyBelow: bool, life: Life): Option<Schedule>
  {
    if inputs.currentDate.None? || inputs.category.None? || inputs.category.value.Unrecognised? then None
    else if anyBelow || (life.Limited? && life.years <= 0.0) then Some(Schedule(true, None, None))
    else
      var full := inputs.category.value.months;
      var months := if life.Limited? && life.years < 4.0 then full / 2 else full;
      Some(Schedule(false, Some(AddMonths(inputs.currentDate.value, months)), Some(months)))
  }

  /** The interim pressure limit, where a trigger is met and the vessel is not withdrawn. */
  function InterimLimit(a: Arithmetic, inputs: Inputs, triggers: set<Trigger>, withdraw: bool): Option<bool>
  {
    if triggers == {} || withdraw || !IsKnown(inputs.operating) || !IsKnown(inputs.mawp) then None
    else
      var operating, mawp := a.pressure(inputs.operating.value.value), a.pressure(inputs.mawp.value.value);
      if mawp <= 0.0 then None else Some(operating <= a.pressure(0.9 * mawp))
  }

  /** What follows once the governing row and the locations below t-min are known. */
  function VesselVerdict(a: Arithmetic, inputs: Inputs, g: Row, below: seq<string>): Decision
  {
    var loss := LossAt(a, inputs.nominal, g.current);
    var triggers := TriggersOf(below != [], g.life, loss);
    var survey := VesselSurvey(a, inputs, below != [], g.life);
    var withdraw := below != [] || (survey.Some? && survey.value.withdraw);
    Decided(g.location, g.rate, g.longGoverns, g.life, below, loss,
            SeverityOf(below != [], g.life, inputs.cladding), triggers, survey, withdraw,
            InterimLimit(a, inputs, triggers, withdraw))
  }

  function VesselFrom(a: Arithmetic, inputs: Inputs, rows: seq<Row>): Decision
  {
    var complete, gaps := Complete(rows), Gaps(inputs, rows);
    if gaps != [] then Withheld(gaps)
    else if complete == [] then Withheld(AllRefused(rows))
    else VesselVerdict(a, inputs, Lowest(complete), BelowAt(complete))
  }

  function VesselDecision(a: Arithmetic, inputs: Inputs): Decision
  {
    VesselFrom(a, inputs, Rows(a, inputs))
  }

  /** The next measurement of a circuit, from its governing remaining life alone. */
  function PipingSchedule(a: Arithmetic, inputs: Inputs, life: Life): Option<Schedule>
  {
    if life.Unlimited? || inputs.currentDate.None? || !IsKnown(inputs.classMax) then None
    else if life.years <= 0.0 then Some(Schedule(true, None, None))
    else
      var half, top := life.years / 2.0, inputs.classMax.value.value;
      var months := ((if half <= top then half else top) * 12.0).Floor;
      Some(Schedule(false, Some(AddMonths(inputs.currentDate.value, months)), Some(months)))
  }

  /** A survey report gives dates, never a number of years. */
  function Dated(inputs: Inputs): Inputs
  {
    inputs.(yearsBetween := None, yearsInService := None)
  }

  function PipingVerdict(a: Arithmetic, inputs: Inputs, g: Row, below: seq<string>): Decision
  {
    var schedule := PipingSchedule(a, inputs, g.life);
    Decided(g.location, g.rate, g.longGoverns, g.life, below, None, None, {}, schedule,
            below != [] || (schedule.Some? && schedule.value.withdraw), None)
  }

  function PipingFrom(a: Arithmetic, inputs: Inputs, rows: seq<Row>): Decision
  {
    var complete, gaps := Complete(rows), Gaps(inputs, rows);
    if complete == [] || gaps != [] then Withheld(gaps)
    else PipingVerdict(a, inputs, Lowest(complete), BelowAt(complete))
  }

  function PipingDecision(a: Arithmetic, inputs: Inputs): Decision
  {
    PipingFrom(a, inputs, Rows(a, Dated(inputs)))
  }

  // --- lists of rows -------------------------------------------------------

  lemma {:induction false} CompleteKeeps(rows: seq<Row>)
    ensures forall x :: x in Complete(rows) <==> x in rows && x.complete
  {
    if rows != [] {
      CompleteKeeps(rows[..|rows| - 1]);
      assert rows == rows[..|rows| - 1] + [rows[|rows| - 1]];
    }
  }

  lemma {:induction false} BelowAtKeeps(rows: seq<Row>)
    ensures forall x :: x in BelowAt(rows) <==> exists r :: r in rows && r.below && r.location == x
  {
    if rows != [] {
      BelowAtKeeps(rows[..|rows| - 1]);
      assert rows == rows[..|rows| - 1] + [rows[|rows| - 1]];
    }
  }

  lemma {:induction false} LowestIsLowest(rows: seq<Row>)
    requires rows != []
    ensures Lowest(rows) in rows
    ensures forall r :: r in rows ==> !Less(r.life, Lowest(rows).life)
  {
    if |rows| > 1 {
      LowestIsLowest(rows[..|rows| - 1]);
      assert rows == rows[..|rows| - 1] + [rows[|rows| - 1]];
    }
  }

  lemma {:induction false} AskedEmptyIff(gaps: seq<Gap>, row: Row, n: nat)
    requires n <= |ASKED|
    ensures Asked(gaps, row, n) == [] <==> gaps == [] && forall k :: 0 <= k < n ==> ASKED[k] !in row.missing
    ensures gaps <= Asked(gaps, row, n)
  {
    if n > 0 {
      AskedEmptyIff(gaps, row, n - 1);
    }
  }

  lemma {:induction false} AskedOfAllEmptyIff(gaps: seq<Gap>, rows: seq<Row>)
    ensures AskedOfAll(gaps, rows) == [] <==>
              gaps == [] && forall r :: r in rows ==> forall k :: 0 <= k < |ASKED| ==> ASKED[k] !in r.missing
  {
    if rows != [] {
      AskedOfAllEmptyIff(gaps, rows[..|rows| - 1]);
      AskedEmptyIff(AskedOfAll(gaps, rows[..|rows| - 1]), rows[|rows| - 1], |ASKED|);
      assert rows == rows[..|rows| - 1] + [rows[|rows| - 1]];
    }
  }

  lemma {:induction false} ToConfirmEmptyIff(nominal: Option<Bound>, readings: seq<Reading>)
    ensures ToConfirm(nominal, readings) == [] <==> forall r :: r in readings ==> !Questioned(nominal, r)
  {
    if readings != [] {
      ToConfirmEmptyIff(nominal, readings[..|readings| - 1]);
      assert readings == readings[..|readings| - 1] + [readings[|readings| - 1]];
    }
  }

  // --- all or nothing ------------------------------------------------------

  /** What a row still asks for. */
  predicate Asks(row: Row)
  {
    exists k :: 0 <= k < |ASKED| && ASKED[k] in row.missing
  }

  /** Everything stated, nothing missing, no reading in question, and one location that could be computed. */
  ghost predicate Ready(f: Reading -> Row, inputs: Inputs)
  {
    && inputs.nominal.Some? && inputs.tMin.Some?
    && (forall r :: r in inputs.readings ==> !Asks(f(r)) && !Questioned(inputs.nominal, r))
    && (exists r :: r in inputs.readings && f(r).complete)
  }

  lemma RowsOfReadings(f: Reading -> Row, readings: seq<Reading>)
    ensures forall r :: r in readings ==> f(r) in RowsBy(f, readings)
    ensures forall x :: x in RowsBy(f, readings) ==> exists r :: r in readings && x == f(r)
  {
    forall r | r in readings
      ensures f(r) in RowsBy(f, readings)
    {
      var i :| 0 <= i < |readings| && readings[i] == r;
      assert RowsBy(f, readings)[i] == f(r);
    }
  }

  lemma NobodyAsksIff(f: Reading -> Row, readings: seq<Reading>)
    ensures (forall x :: x in RowsBy(f, readings) ==> !Asks(x)) <==> (forall r :: r in readings ==> !Asks(f(r)))
  {
    RowsOfReadings(f, readings);
  }

  lemma GapsIff(inputs: Inputs, rows: seq<Row>)
    ensures Gaps(inputs, rows) == [] <==>
              && Stated(inputs) == [] && (forall x :: x in rows ==> !Asks(x))
              && (forall r :: r in inputs.readings ==> !Questioned(inputs.nominal, r))
  {
    AskedOfAllEmptyIff(Stated(inputs), rows);
    ToConfirmEmptyIff(inputs.nominal, inputs.readings);
  }

  lemma SomeCompleteIff(f: Reading -> Row, readings: seq<Reading>)
    ensures Complete(RowsBy(f, readings)) != [] <==> exists r :: r in readings && f(r).complete
  {
    var rows := RowsBy(f, readings);
    RowsOfReadings(f, readings);
    CompleteKeeps(rows);
    if Complete(rows) != [] {
      assert Complete(rows)[0] in Complete(rows);
    }
    forall r | r in readings && f(r).complete
      ensures f(r) in Complete(rows)
    {
    }
  }

  lemma NoGapsIff(f: Reading -> Row, inputs: Inputs)
    ensures var rows := RowsBy(f, inputs.readings);
            Gaps(inputs, rows) == [] && Complete(rows) != [] <==> Ready(f, inputs)
  {
    GapsIff(inputs, RowsBy(f, inputs.readings));
    NobodyAsksIff(f, inputs.readings);
    SomeCompleteIff(f, inputs.readings);
  }

  /** A vessel is decided exactly when it is ready; otherwise not one figure is given. */
  lemma VesselDecidedIff(a: Arithmetic, inputs: Inputs)
    ensures VesselDecision(a, inputs).Decided? <==> Ready(RowOf(a, WallOf(a, inputs)), inputs)
  {
    NoGapsIff(RowOf(a, WallOf(a, inputs)), inputs);
  }

  lemma PipingDecidedIff(a: Arithmetic, inputs: Inputs)
    ensures PipingDecision(a, inputs).Decided? <==> Ready(RowOf(a, WallOf(a, Dated(inputs))), inputs)
  {
    NoGapsIff(RowOf(a, WallOf(a, Dated(inputs))), inputs);
  }

  lemma ReadyIsDecided(a: Arithmetic, f: Reading -> Row, inputs: Inputs)
    requires Ready(f, inputs)
    ensures var complete := Complete(RowsBy(f, inputs.readings));
            && complete != []
            && VesselFrom(a, inputs, RowsBy(f, inputs.readings)) == VesselVerdict(a, inputs, Lowest(complete), BelowAt(complete))
  {
    NoGapsIff(f, inputs);
  }

  lemma VerdictIgnoresReadings(a: Arithmetic, inputs: Inputs, other: seq<Reading>, g: Row, below: seq<string>)
    ensures VesselVerdict(a, inputs.(readings := other), g, below) == VesselVerdict(a, inputs, g, below)
  {
  }

  lemma CircuitVerdictIgnoresReadings(a: Arithmetic, inputs: Inputs, other: seq<Reading>, g: Row, below: seq<string>)
    ensures PipingVerdict(a, inputs.(readings := other), g, below) == PipingVerdict(a, inputs, g, below)
  {
  }

  lemma ReadyCircuitIsDecided(a: Arithmetic, f: Reading -> Row, inputs: Inputs)
    requires Ready(f, inputs)
    ensures var complete := Complete(RowsBy(f, inputs.readings));
            && complete != []
            && PipingFrom(a, inputs, RowsBy(f, inputs.readings)) == PipingVerdict(a, inputs, Lowest(complete), BelowAt(complete))
  {
    NoGapsIff(f, inputs);
  }

  lemma CompleteOneMore(f: Reading -> Row, readings: seq<Reading>, r: Reading)
    ensures Complete(RowsBy(f, readings + [r])) == Complete(RowsBy(f, readings)) + if f(r).complete then [f(r)] else []
  {
    var more := readings + [r];
    assert more[..|more| - 1] == readings;
    assert RowsBy(f, more)[..|more| - 1] == RowsBy(f, readings);
  }

  // --- the governing location ----------------------------------------------

  lemma LowestOf(f: Reading -> Row, readings: seq<Reading>)
    requires Complete(RowsBy(f, readings)) != []
    ensures var g := Lowest(Complete(RowsBy(f, readings)));
            && g.complete
            && (exists r :: r in readings && f(r) == g)
            && (forall r :: r in readings && f(r).complete ==> !Less(f(r).life, g.life))
  {
    RowsOfReadings(f, readings);
    CompleteKeeps(RowsBy(f, readings));
    LowestIsLowest(Complete(RowsBy(f, readings)));
  }

  /** The location that governs was computed in full, no other computed one has less life left, and no reading is in question. */
  lemma GoverningHasLeastLife(a: Arithmetic, inputs: Inputs)
    requires VesselDecision(a, inputs).Decided?
    ensures var d, f := VesselDecision(a, inputs), RowOf(a, WallOf(a, inputs));
            && (exists r :: r in inputs.readings && f(r).complete
                  && f(r).location == d.governing && f(r).life == d.life && f(r).rate == d.rate)
            && (forall r :: r in inputs.readings && f(r).complete ==> !Less(f(r).life, d.life))
            && (forall r :: r in inputs.readings ==> !Questioned(inputs.nominal, r))
  {
    VesselDecidedIff(a, inputs);
    LowestOf(RowOf(a, WallOf(a, inputs)), inputs.readings);
  }

  /** The same of a circuit. */
  lemma CircuitGoverningHasLeastLife(a: Arithmetic, inputs: Inputs)
    requires PipingDecision(a, inputs).Decided?
    ensures var d, f := PipingDecision(a, inputs), RowOf(a, WallOf(a, Dated(inputs)));
            && (exists r :: r in inputs.readings && f(r).complete
                  && f(r).location == d.governing && f(r).life == d.life && f(r).rate == d.rate)
            && (forall r :: r in inputs.readings && f(r).complete ==> !Less(f(r).life, d.life))
            && (forall r :: r in inputs.readings ==> !Questioned(inputs.nominal, r))
  {
    PipingDecidedIff(a, inputs);
    LowestOf(RowOf(a, WallOf(a, Dated(inputs))), inputs.readings);
  }

  lemma BelowOf(f: Reading -> Row, readings: seq<Reading>)
    ensures forall x :: x in BelowAt(Complete(RowsBy(f, readings))) <==>
              exists r :: r in readings && f(r).complete && f(r).below && f(r).location == x
  {
    var complete := Complete(RowsBy(f, readings));
    RowsOfReadings(f, readings);
    CompleteKeeps(RowsBy(f, readings));
    BelowAtKeeps(complete);
    forall r | r in readings && f(r).complete && f(r).below
      ensures f(r).location in BelowAt(complete)
    {
      assert f(r) in complete;
    }
  }

  // --- the assessment as it is built ---------------------------------------

  method LocationRows(a: Arithmetic, wall: Wall, readings: seq<Reading>) returns (rows: seq<Row>)
    ensures rows == RowsBy(RowOf(a, wall), readings)
  {
    rows := [];
    for i := 0 to |readings|
      invariant rows == RowsBy(RowOf(a, wall), readings[..i])
    {
      assert readings[..i + 1][..i] == readings[..i];
      rows := rows + [Chain(a, wall, readings[i])];
    }
    assert readings[..|readings|] == readings;
  }

  method CompleteRows(rows: seq<Row>) returns (complete: seq<Row>)
    ensures complete == Complete(rows)
  {
    complete := [];
    for i := 0 to |rows|
      invariant complete == Complete(rows[..i])
    {
      assert rows[..i + 1][..i] == rows[..i];
      if rows[i].complete {
        complete := complete + [rows[i]];
      }
    }
    assert rows[..|rows|] == rows;
  }

  /** `_readings_to_confirm`. */
  method ReadingsToConfirm(nominal: Option<Bound>, readings: seq<Reading>) returns (notes: seq<Gap>)
    ensures notes == ToConfirm(nominal, readings)
  {
    notes := [];
    for i := 0 to |readings|
      invariant notes == ToConfirm(nominal, readings[..i])
    {
      assert readings[..i + 1][..i] == readings[..i];
      if Questioned(nominal, readings[i]) {
        notes := notes + [Confirm(readings[i].location)];
      }
    }
    assert readings[..|readings|] == readings;
  }

  /** `_missing_summary`. */
  method MissingSummary(inputs: Inputs, rows: seq<Row>) returns (missing: seq<Gap>)
    ensures missing == Gaps(inputs, rows)
  {
    missing := [];
    if inputs.nominal.None? {
      missing := missing + [NominalThickness];
    }
    if inputs.tMin.None? {
      missing := missing + [MinimumThickness];
    }
    if inputs.readings == [] {
      missing := missing + [Readings];
    }
    for i := 0 to |rows|
      invariant missing == AskedOfAll(Stated(inputs), rows[..i])
    {
      assert rows[..i + 1][..i] == rows[..i];
      ghost var before := missing;
      for k := 0 to |ASKED|
        invariant missing == Asked(before, rows[i], k)
      {
        if ASKED[k] in rows[i].missing && Input(ASKED[k]) !in missing {
          missing := missing + [Input(ASKED[k])];
        }
      }
    }
    assert rows[..|rows|] == rows;
    var notes := ReadingsToConfirm(inputs.nominal, inputs.readings);
    missing := missing + notes;
  }

  /** The first row of least life, and the locations below t-min. */
  method GoverningRow(rows: seq<Row>) returns (governing: Row, below: seq<string>)
    requires rows != []
    ensures governing == Lowest(rows) && below == BelowAt(rows)
  {
    governing := rows[0];
    below := if governing.below then [governing.location] else [];
    assert rows[..1][..0] == [];
    assert BelowAt(rows[..1]) == BelowAt(rows[..1][..0]) + below;
    for i := 1 to |rows|
      invariant governing == Lowest(rows[..i]) && below == BelowAt(rows[..i])
    {
      assert rows[..i + 1][..i] == rows[..i];
      if Less(rows[i].life, governing.life) {
        governing := rows[i];
      }
      if rows[i].below {
        below := below + [rows[i].location];
      }
    }
    assert rows[..|rows|] == rows;
  }

  /** The record of the decision; nothing but what is missing until one is reached. */
  class IntegrityAssessment {
    var calculated: bool
    var missing: seq<Gap>
    var governing: Option<string>
    var rate: Option<real>
    var longGoverns: bool
    var life: Option<Life>
    var below: seq<string>
    var loss: Option<real>
    var severity: Option<Severity>
    var triggers: set<Trigger>
    var withdraw: bool
    var due: Option<Day>
    var months: Option<int>
    var interim: Option<bool>

    /** Not one figure, severity, trigger or date. */
    ghost predicate SaysNothing()
      reads this
    {
      && governing.None? && rate.None? && !longGoverns && life.None? && below == [] && loss.None? && severity.None?
      && triggers == {} && !withdraw && due.None? && months.None? && interim.None?
    }

    ghost predicate Shows(d: Decision)
      reads this
    {
      match d
      case Withheld(gaps) => !calculated && missing == gaps && SaysNothing()
      case Decided(where, rate, long, life, below, loss, severity, triggers, schedule, withdraw, interim) =>
        && calculated && missing == []
        && governing == Some(where) && this.rate == rate && longGoverns == long && this.life == Some(life)
        && this.below == below && this.loss == loss && this.severity == severity && this.triggers == triggers
        && this.withdraw == withdraw && this.interim == interim
        && due == (if schedule.Some? then schedule.value.due else None)
        && months == (if schedule.Some? then schedule.value.months else None)
    }

    constructor (missing: seq<Gap>)
      ensures Shows(Withheld(missing))
    {
      calculated, this.missing := false, missing;
      governing, rate, longGoverns, life, below, loss := None, None, false, None, [], None;
      severity, triggers, withdraw, due, months, interim := None, {}, false, None, None, None;
    }

    /** What every kind of record says of its governing location. */
    method Govern(g: Row, at: seq<string>)
      modifies this
      ensures calculated && missing == [] && governing == Some(g.location) && rate == g.rate && longGoverns == g.longGoverns
      ensures life == Some(g.life) && below == at
      ensures unchanged(this`loss, this`severity, this`triggers, this`withdraw, this`due, this`months, this`interim)
    {
      calculated, missing := true, [];
      governing, rate, longGoverns, life, below := Some(g.location), g.rate, g.longGoverns, Some(g.life), at;
    }

    method Plan(schedule: Option<Schedule>)
      requires !withdraw && due.None? && months.None?
      modifies this`withdraw, this`due, this`months
      ensures withdraw <==> below != [] || (schedule.Some? && schedule.value.withdraw)
      ensures due == (if schedule.Some? then schedule.value.due else None)
      ensures months == (if schedule.Some? then schedule.value.months else None)
    {
      if schedule.Some? {
        withdraw, due, months := schedule.value.withdraw, schedule.value.due, schedule.value.months;
      }
      if below != [] {
        withdraw := true;
      }
    }

    method ConcludeVessel(a: Arithmetic, inputs: Inputs, g: Row, at: seq<string>)
      requires Shows(Withheld([]))
      modifies this
      ensures Shows(VesselVerdict(a, inputs, g, at))
    {
      Govern(g, at);
      loss := LossAt(a, inputs.nominal, g.current);
      severity := SeverityOf(at != [], g.life, inputs.cladding);
      triggers := TriggersOf(at != [], g.life, loss);
      Plan(VesselSurvey(a, inputs, at != [], g.life));
      interim := InterimLimit(a, inputs, triggers, withdraw);
    }

    method ConcludePiping(a: Arithmetic, inputs: Inputs, g: Row, at: seq<string>)
      requires Shows(Withheld([]))
      modifies this
      ensures Shows(PipingVerdict(a, inputs, g, at))
    {
      Govern(g, at);
      Plan(PipingSchedule(a, inputs, g.life));
    }
  }

  /** `assess_vessel`. */
  method AssessVessel(a: Arithmetic, inputs: Inputs) returns (assessment: IntegrityAssessment)
    ensures fresh(assessment) && assessment.Shows(VesselDecision(a, inputs))
  {
    var rows := LocationRows(a, WallOf(a, inputs), inputs.readings);
    var complete := CompleteRows(rows);
    var missing := MissingSummary(inputs, rows);
    if complete == [] || missing != [] {
      assessment := new IntegrityAssessment(if missing == [] then AllRefused(rows) else missing);
      return;
    }
    assessment := new IntegrityAssessment(missing);
    var g, below := GoverningRow(complete);
    assessment.ConcludeVessel(a, inputs, g, below);
  }

  /** `assess_piping`. */
  method AssessPiping(a: Arithmetic, inputs: Inputs) returns (assessment: IntegrityAssessment)
    ensures fresh(assessment) && assessment.Shows(PipingDecision(a, inputs))
  {
    var rows := LocationRows(a, WallOf(a, Dated(inputs)), inputs.readings);
    var complete := CompleteRows(rows);
    var missing := MissingSummary(inputs, rows);
    assessment := new IntegrityAssessment(missing);
    if complete == [] || missing != [] {
      return;
    }
    var g, below := GoverningRow(complete);
    assessment.ConcludePiping(a, inputs, g, below);
  }
}
