/**
 Withdrawal and what goes with it: when equipment is taken out of service, when a
 due date may still be shown, and which locations leave the comparison
 (backend/engineering/assessment.py).
 */
module AssessmentWithdrawal {
  import opened Wrappers
  import opened Calendar
  import opened Rounding
  import opened Assessment

  // --- withdrawal ----------------------------------------------------------

  /** One location below t-min is enough: High, withdrawn, nothing scheduled, no interim operation judged. */
  lemma BelowForcesWithdrawal(a: Arithmetic, inputs: Inputs, r: Reading)
    requires VesselDecision(a, inputs).Decided?
    requires r in inputs.readings && var row := RowOf(a, WallOf(a, inputs))(r); row.complete && row.below
    ensures var d := VesselDecision(a, inputs);
            && d.withdraw && d.interim.None? && r.location in d.below && ThinnerThanTMin in d.triggers
            && (d.schedule.Some? ==> d.schedule.value.due.None? && d.schedule.value.months.None?)
            && (d.severity == Some(High) || IsWrong(inputs.cladding))
  {
    BelowOf(RowOf(a, WallOf(a, inputs)), inputs.readings);
  }

  /** Exactly when a vessel is withdrawn, and that it then carries no due date and no interim limit. */
  lemma VesselWithdrawnIff(a: Arithmetic, inputs: Inputs)
    requires VesselDecision(a, inputs).Decided?
    ensures var d, f := VesselDecision(a, inputs), RowOf(a, WallOf(a, inputs));
            && (d.withdraw <==>
                  || (exists r :: r in inputs.readings && f(r).complete && f(r).below)
                  || (inputs.currentDate.Some? && inputs.category.Some? && inputs.category.value.Recognised?
                      && exists r :: r in inputs.readings && f(r).complete && Spent(f(r).life)))
            && (d.withdraw && d.schedule.Some? ==> d.schedule.value == Schedule(true, None, None))
            && (d.interim.Some? ==> !d.withdraw && d.triggers != {})
  {
    var f := RowOf(a, WallOf(a, inputs));
    VesselDecidedIff(a, inputs);
    ReadyIsDecided(a, f, inputs);
    SomeBelowIff(f, inputs.readings);
    LeastLifeIs(f, inputs.readings);
    var complete := Complete(RowsBy(f, inputs.readings));
    SurveyShows(a, inputs, Lowest(complete), BelowAt(complete));
  }

  lemma SurveyShows(a: Arithmetic, inputs: Inputs, g: Row, below: seq<string>)
    ensures var d := VesselVerdict(a, inputs, g, below);
            && (d.withdraw <==>
                  || below != []
                  || (Spent(g.life) && inputs.currentDate.Some? && inputs.category.Some? && inputs.category.value.Recognised?))
            && (d.withdraw && d.schedule.Some? ==> d.schedule.value == Schedule(true, None, None))
            && (d.interim.Some? ==> !d.withdraw && d.triggers != {})
  {
  }

  /** The same of a circuit: its withdrawal replaces the action, whatever its schedule says. */
  lemma BelowForcesCircuitWithdrawal(a: Arithmetic, inputs: Inputs, r: Reading)
    requires PipingDecision(a, inputs).Decided?
    requires r in inputs.readings && var row := RowOf(a, WallOf(a, Dated(inputs)))(r); row.complete && row.below
    ensures PipingDecision(a, inputs).withdraw && r.location in PipingDecision(a, inputs).below
  {
    BelowOf(RowOf(a, WallOf(a, Dated(inputs))), inputs.readings);
  }

  // --- a due date on a withdrawn circuit -----------------------------------

  predicate DueWhileWithdrawn(d: Decision)
  {
    d.Decided? && d.withdraw && d.schedule.Some? && d.schedule.value.due.Some?
  }

  predicate Spent(life: Life)
  {
    life.Limited? && life.years <= 0.0
  }

  /** A computed life is limited exactly where the rate, as rounded, is positive. */
  lemma LimitedIffThinning(a: Arithmetic, wall: Wall, r: Reading)
    requires Chain(a, wall, r).complete
    ensures Chain(a, wall, r).life.Limited? <==> Thinning(Chain(a, wall, r))
  {
  }

  /** Some location is below t-min, none has spent its life, and some is thinning, as far as the rounded rates show. */
  ghost predicate BelowUnseen(f: Reading -> Row, readings: seq<Reading>)
  {
    && (exists r :: r in readings && f(r).complete && f(r).below)
    && (forall r :: r in readings && f(r).complete ==> !Spent(f(r).life))
    && (exists r :: r in readings && f(r).complete && Thinning(f(r)))
  }

  /** The rate, as rounded, is above zero. */
  predicate Thinning(row: Row)
  {
    row.rate.Some? && row.rate.value > 0.0
  }

  /** A life is limited just where there is a rate to limit it. */
  ghost predicate RatesLimit(f: Reading -> Row)
  {
    forall r :: f(r).complete ==> (f(r).life.Limited? <==> Thinning(f(r)))
  }

  lemma ChainsLimit(a: Arithmetic, wall: Wall)
    ensures RatesLimit(RowOf(a, wall))
  {
    forall r
      ensures var row := RowOf(a, wall)(r); row.complete ==> (row.life.Limited? <==> Thinning(row))
    {
      if Chain(a, wall, r).complete {
        LimitedIffThinning(a, wall, r);
      }
    }
  }

  lemma SomeBelowIff(f: Reading -> Row, readings: seq<Reading>)
    ensures BelowAt(Complete(RowsBy(f, readings))) != [] <==> exists r :: r in readings && f(r).complete && f(r).below
  {
    BelowOf(f, readings);
    var below := BelowAt(Complete(RowsBy(f, readings)));
    if below != [] {
      assert below[0] in below;
    }
    if r :| r in readings && f(r).complete && f(r).below {
      assert f(r).location in below;
    }
  }

  lemma LeastLifeIs(f: Reading -> Row, readings: seq<Reading>)
    requires Complete(RowsBy(f, readings)) != []
    ensures var life := Lowest(Complete(RowsBy(f, readings))).life;
            && (Spent(life) <==> exists r :: r in readings && f(r).complete && Spent(f(r).life))
            && (life.Limited? <==> exists r :: r in readings && f(r).complete && f(r).life.Limited?)
  {
    LowestOf(f, readings);
    var r :| r in readings && f(r) == Lowest(Complete(RowsBy(f, readings)));
    assert f(r).complete;
  }

  lemma ScheduleShows(a: Arithmetic, inputs: Inputs, g: Row, below: seq<string>)
    ensures DueWhileWithdrawn(PipingVerdict(a, inputs, g, below)) <==>
              below != [] && g.life.Limited? && !Spent(g.life) && inputs.currentDate.Some? && IsKnown(inputs.classMax)
  {
  }

  lemma BelowUnseenIff(a: Arithmetic, f: Reading -> Row, inputs: Inputs)
    requires Ready(f, inputs) && RatesLimit(f)
    ensures DueWhileWithdrawn(PipingFrom(a, inputs, RowsBy(f, inputs.readings))) <==>
              BelowUnseen(f, inputs.readings) && inputs.currentDate.Some? && IsKnown(inputs.classMax)
  {
    ReadyCircuitIsDecided(a, f, inputs);
    SomeBelowIff(f, inputs.readings);
    LeastLifeIs(f, inputs.readings);
    ThinningIsLimited(f, inputs.readings);
    var complete := Complete(RowsBy(f, inputs.readings));
    ScheduleShows(a, inputs, Lowest(complete), BelowAt(complete));
  }

  /**
   A circuit's schedule looks at the governing life alone. So a withdrawn circuit still carries a due date
   exactly when a location computed in full is below t-min, none such has spent its life, one is thinning at a
   rate that rounds above zero, and the survey date and class maximum are known.
   */
  lemma WithdrawnCircuitHasDueDateIff(a: Arithmetic, inputs: Inputs)
    requires PipingDecision(a, inputs).Decided?
    ensures DueWhileWithdrawn(PipingDecision(a, inputs)) <==>
              && BelowUnseen(RowOf(a, WallOf(a, Dated(inputs))), inputs.readings)
              && inputs.currentDate.Some? && IsKnown(inputs.classMax)
  {
    var wall := WallOf(a, Dated(inputs));
    PipingDecidedIff(a, inputs);
    ChainsLimit(a, wall);
    BelowUnseenIff(a, RowOf(a, wall), inputs);
  }

  lemma ThinningIsLimited(f: Reading -> Row, readings: seq<Reading>)
    requires RatesLimit(f)
    ensures (exists r :: r in readings && f(r).complete && f(r).life.Limited?)
            <==> exists r :: r in readings && f(r).complete && Thinning(f(r))
  {
  }

  /** Rates in millionths and lives in hundredths, rounded to the nearest. */
  ghost predicate Rounds(a: Arithmetic)
  {
    RoundsTo(a.rate, 1000000.0) && RoundsTo(a.life, 100.0)
  }

  lemma ComputedRounds()
    ensures Rounds(Computed())
  {
    RoundRounds(Computed().rate, 1000000.0);
    RoundRounds(Computed().life, 100.0);
  }

  /** The wall when new was thicker than t-min by at least what half a millionth of a millimetre a year has taken since. */
  predicate HasMargin(wall: Wall)
  {
    && IsKnown(wall.nominal) && IsKnown(wall.tMin) && IsKnown(wall.inService)
    && wall.nominal.value.value - wall.tMin.value.value >= 0.0000005 * wall.inService.value.value
  }

  lemma Quotient(x: real, y: real, k: real)
    requires y > 0.0
    ensures x > k * y ==> x / y > k
    ensures x < k * y ==> x / y < k
  {
    var q := x / y;
    assert q * y == x;
    if q <= k {
      assert q * y <= k * y;
    }
    if q >= k {
      assert q * y >= k * y;
    }
  }

  /** The higher of two rounded rates, rounded again, is above zero where the long-term rate is more than half a unit. */
  lemma HigherRateShows(a: Arithmetic, short: real, long: real)
    requires Rounds(a) && long > 0.0000005
    ensures a.rate(if a.rate(long) > short then a.rate(long) else short) > 0.0
  {
    var l := a.rate(long);
    assert InUnits(l, long, 1000000.0);
    SignsKept(l, long, 1000000.0);
    var higher := if l > short then l else short;
    assert InUnits(a.rate(higher), higher, 1000000.0);
    SignsKept(a.rate(higher), higher, 1000000.0);
  }

  lemma NegativeLifeIsSpent(a: Arithmetic, margin: real, rate: real)
    requires Rounds(a) && margin < 0.0 && rate > 0.0
    ensures a.life(margin / rate) <= 0.0
  {
    Quotient(margin, rate, 0.0);
    assert InUnits(a.life(margin / rate), margin / rate, 100.0);
    SignsKept(a.life(margin / rate), margin / rate, 100.0);
  }

  /** On such a wall, a location below t-min has spent its life. */
  lemma BelowIsSpent(a: Arithmetic, wall: Wall, r: Reading)
    requires Rounds(a) && HasMargin(wall)
    requires Chain(a, wall, r).complete && Chain(a, wall, r).below
    ensures Spent(Chain(a, wall, r).life)
  {
    var years, lost := wall.inService.value.value, wall.nominal.value.value - r.current.value.value;
    var short := LossRate(a, r.previous, TPrevious, r.current, wall.between, YearsBetween);
    var long := LossRate(a, wall.nominal, TNominal, r.current, wall.inService, YearsInService);
    Quotient(lost, years, 0.0000005);
    assert long.value == a.rate(lost / years);
    HigherRateShows(a, short.value, lost / years);
    NegativeLifeIsSpent(a, r.current.value.value - wall.tMin.value.value, Chain(a, wall, r).rate.value);
  }

  /** So where the wall had that margin when new, no withdrawn circuit carries a due date. */
  lemma SoundWallHasNoDueDate(a: Arithmetic, inputs: Inputs)
    requires Rounds(a) && HasMargin(WallOf(a, Dated(inputs)))
    ensures !DueWhileWithdrawn(PipingDecision(a, inputs))
  {
    if PipingDecision(a, inputs).Decided? {
      WithdrawnCircuitHasDueDateIff(a, inputs);
      var wall := WallOf(a, Dated(inputs));
      forall r | r in inputs.readings && RowOf(a, wall)(r).complete && RowOf(a, wall)(r).below
        ensures Spent(RowOf(a, wall)(r).life)
      {
        BelowIsSpent(a, wall, r);
      }
    }
  }

  // --- and otherwise there is one that does --------------------------------

  /** Two locations: one just below t-min and not measurably thinning, one well above it and thinning by a millimetre a year. */
  function ThinReadings(wall: Wall): seq<Reading>
    requires IsKnown(wall.nominal) && IsKnown(wall.tMin) && IsKnown(wall.between) && IsKnown(wall.inService)
  {
    [At("CML-1", JustBelow(wall), JustBelow(wall)),
     At("CML-2", wall.tMin.value.value + 1.0 + wall.between.value.value, wall.tMin.value.value + 1.0)]
  }

  function JustBelow(wall: Wall): real
    requires IsKnown(wall.nominal) && IsKnown(wall.tMin) && IsKnown(wall.inService)
  {
    wall.tMin.value.value
    - (0.0000005 * wall.inService.value.value - (wall.nominal.value.value - wall.tMin.value.value)) / 2.0
  }

  predicate Dateable(wall: Wall)
  {
    && IsKnown(wall.nominal) && IsKnown(wall.tMin) && IsKnown(wall.between) && IsKnown(wall.inService)
    && wall.between.value.value > 0.0 && wall.inService.value.value > 0.0
  }

  lemma SlowRatesRoundAway(lost: real, years: real)
    requires years > 0.0 && lost < 0.0000005 * years
    ensures Round(lost / years, 1000000.0) <= 0.0
  {
    Quotient(lost, years, 0.0000005);
    RoundPositiveIff(lost / years, 1000000.0);
  }

  lemma ThinFirst(wall: Wall)
    requires Dateable(wall) && !HasMargin(wall)
    ensures var row := Chain(Computed(), wall, ThinReadings(wall)[0]);
            row.complete && row.below && row.life == Unlimited && row.missing == {} && row.location == "CML-1"
  {
    var t, years := JustBelow(wall), wall.inService.value.value;
    SlowRatesRoundAway(wall.nominal.value.value - t, years);
    RoundKeepsUnits(0.0, 1000000.0, 0);
    assert t < wall.tMin.value.value;
    assert (t - t) / wall.between.value.value == 0.0;
  }

  lemma ThinSecond(wall: Wall)
    requires Dateable(wall) && !HasMargin(wall)
    ensures var row := Chain(Computed(), wall, ThinReadings(wall)[1]);
            row.complete && !row.below && row.life == Limited(1.0) && row.missing == {} && Thinning(row)
  {
    var t, years := wall.tMin.value.value + 1.0, wall.inService.value.value;
    SlowRatesRoundAway(wall.nominal.value.value - t, years);
    RoundKeepsUnits(1.0, 1000000.0, 1000000);
    RoundKeepsUnits(1.0, 100.0, 100);
    assert (t + wall.between.value.value - t) / wall.between.value.value == 1.0;
    assert (t - wall.tMin.value.value) / 1.0 == 1.0;
  }

  lemma OneUnseenIsReady(f: Reading -> Row, inputs: Inputs, first: Reading, second: Reading)
    requires inputs.readings == [first, second] && inputs.nominal.Some? && inputs.tMin.Some?
    requires f(first).complete && f(first).below && f(first).life == Unlimited && f(first).missing == {}
    requires f(second).complete && f(second).life == Limited(1.0) && f(second).missing == {} && Thinning(f(second))
    requires !Questioned(inputs.nominal, first) && !Questioned(inputs.nominal, second)
    ensures Ready(f, inputs) && BelowUnseen(f, inputs.readings)
  {
    assert inputs.readings[0] == first && inputs.readings[1] == second;
    assert first in inputs.readings && second in inputs.readings;
  }

  /** On any wall without the margin there is a circuit that is decided, withdrawn and given a due date. */
  lemma ThinCircuitKeepsADueDate(inputs: Inputs)
    requires Dateable(WallOf(Computed(), Dated(inputs))) && !HasMargin(WallOf(Computed(), Dated(inputs)))
    requires inputs.currentDate.Some? && IsKnown(inputs.classMax)
    ensures DueWhileWithdrawn(PipingDecision(Computed(), inputs.(readings := ThinReadings(WallOf(Computed(), Dated(inputs))))))
  {
    var wall := WallOf(Computed(), Dated(inputs));
    var again := inputs.(readings := ThinReadings(wall));
    var f := RowOf(Computed(), wall);
    assert WallOf(Computed(), Dated(again)) == wall;
    ThinFirst(wall);
    ThinSecond(wall);
    OneUnseenIsReady(f, again, again.readings[0], again.readings[1]);
    ChainsLimit(Computed(), wall);
    BelowUnseenIff(Computed(), f, again);
  }

  /**
   The exact condition, for the rounding the formulas use: no readings taken on this wall can give a
   withdrawn circuit a due date if and only if the wall had the margin.
   */
  lemma NoDueDateOnThisWallIff(inputs: Inputs)
    requires Dateable(WallOf(Computed(), Dated(inputs)))
    requires inputs.currentDate.Some? && IsKnown(inputs.classMax)
    ensures (forall readings :: !DueWhileWithdrawn(PipingDecision(Computed(), inputs.(readings := readings))))
            <==> HasMargin(WallOf(Computed(), Dated(inputs)))
  {
    var wall := WallOf(Computed(), Dated(inputs));
    ComputedRounds();
    if HasMargin(wall) {
      forall readings
        ensures !DueWhileWithdrawn(PipingDecision(Computed(), inputs.(readings := readings)))
      {
        assert WallOf(Computed(), Dated(inputs.(readings := readings))) == wall;
        SoundWallHasNoDueDate(Computed(), inputs.(readings := readings));
      }
    } else {
      ThinCircuitKeepsADueDate(inputs);
    }
  }

  // --- locations that drop out ---------------------------------------------

  /** A formula refused at this location, and nothing is asked for. */
  predicate DropsOut(row: Row)
  {
    !row.complete && !Asks(row)
  }

  /** Nothing missing and yet not complete means a formula was refused. */
  lemma DropsOutIsRefused(a: Arithmetic, wall: Wall, r: Reading)
    requires DropsOut(Chain(a, wall, r))
    ensures Chain(a, wall, r).refused != []
  {
    var row := Chain(a, wall, r);
    assert ASKED[0] == TCurrent && ASKED[1] == TMin && ASKED[2] == TNominal;
    assert ASKED[3] == TPrevious && ASKED[4] == YearsBetween && ASKED[5] == YearsInService;
    assert forall n :: n in {TCurrent, TMin, TNominal, TPrevious, YearsBetween, YearsInService} ==> n !in row.missing;
  }

  function Remaining(f: Reading -> Row, readings: seq<Reading>): seq<Reading>
  {
    if readings == [] then []
    else Remaining(f, readings[..|readings| - 1])
         + if DropsOut(f(readings[|readings| - 1])) then [] else [readings[|readings| - 1]]
  }

  lemma {:induction false} RemainingElements(f: Reading -> Row, readings: seq<Reading>)
    ensures forall r :: r in Remaining(f, readings) <==> r in readings && !DropsOut(f(r))
  {
    if readings != [] {
      RemainingElements(f, readings[..|readings| - 1]);
      assert readings == readings[..|readings| - 1] + [readings[|readings| - 1]];
    }
  }

  lemma RemainingOneMore(f: Reading -> Row, front: seq<Reading>, last: Reading)
    ensures Remaining(f, front + [last]) == if DropsOut(f(last)) then Remaining(f, front) else Remaining(f, front) + [last]
  {
    assert (front + [last])[..|front|] == front;
    assert Remaining(f, front) + [] == Remaining(f, front);
  }

  /** A row that drops out is not complete, so it was not compared. */
  lemma DroppedOneMore(f: Reading -> Row, front: seq<Reading>, last: Reading)
    requires Complete(RowsBy(f, Remaining(f, front))) == Complete(RowsBy(f, front))
    ensures Complete(RowsBy(f, Remaining(f, front + [last]))) == Complete(RowsBy(f, front + [last]))
  {
    RemainingOneMore(f, front, last);
    CompleteOneMore(f, front, last);
    CompleteOneMore(f, Remaining(f, front), last);
    assert DropsOut(f(last)) ==> !f(last).complete;
    assert Complete(RowsBy(f, front)) + [] == Complete(RowsBy(f, front));
  }

  lemma {:induction false} DroppedAreNotCompared(f: Reading -> Row, readings: seq<Reading>)
    ensures Complete(RowsBy(f, Remaining(f, readings))) == Complete(RowsBy(f, readings))
  {
    if readings != [] {
      var n := |readings| - 1;
      assert readings == readings[..n] + [readings[n]];
      DroppedAreNotCompared(f, readings[..n]);
      DroppedOneMore(f, readings[..n], readings[n]);
    }
  }

  lemma RemainingStaysReady(f: Reading -> Row, inputs: Inputs)
    requires Ready(f, inputs)
    ensures Ready(f, inputs.(readings := Remaining(f, inputs.readings)))
  {
    RemainingElements(f, inputs.readings);
    var r :| r in inputs.readings && f(r).complete;
    assert r in Remaining(f, inputs.readings);
  }

  lemma DroppedChangeNothing(a: Arithmetic, f: Reading -> Row, inputs: Inputs)
    requires Ready(f, inputs)
    ensures var kept := Remaining(f, inputs.readings);
            VesselFrom(a, inputs.(readings := kept), RowsBy(f, kept)) == VesselFrom(a, inputs, RowsBy(f, inputs.readings))
  {
    var kept := Remaining(f, inputs.readings);
    RemainingStaysReady(f, inputs);
    ReadyIsDecided(a, f, inputs);
    ReadyIsDecided(a, f, inputs.(readings := kept));
    DroppedAreNotCompared(f, inputs.readings);
    var complete := Complete(RowsBy(f, inputs.readings));
    VerdictIgnoresReadings(a, inputs, kept, Lowest(complete), BelowAt(complete));
  }

  /** A decided vessel is decided as if the locations a formula refused had never been read. */
  lemma RefusedLocationsAreIgnored(a: Arithmetic, inputs: Inputs)
    requires VesselDecision(a, inputs).Decided?
    ensures var kept := Remaining(RowOf(a, WallOf(a, inputs)), inputs.readings);
            VesselDecision(a, inputs.(readings := kept)) == VesselDecision(a, inputs)
  {
    var f := RowOf(a, WallOf(a, inputs));
    assert WallOf(a, inputs.(readings := Remaining(f, inputs.readings))) == WallOf(a, inputs);
    VesselDecidedIff(a, inputs);
    DroppedChangeNothing(a, f, inputs);
  }

  lemma DroppedChangeNoCircuit(a: Arithmetic, f: Reading -> Row, inputs: Inputs)
    requires Ready(f, inputs)
    ensures var kept := Remaining(f, inputs.readings);
            PipingFrom(a, inputs.(readings := kept), RowsBy(f, kept)) == PipingFrom(a, inputs, RowsBy(f, inputs.readings))
  {
    var kept := Remaining(f, inputs.readings);
    RemainingStaysReady(f, inputs);
    ReadyCircuitIsDecided(a, f, inputs);
    ReadyCircuitIsDecided(a, f, inputs.(readings := kept));
    DroppedAreNotCompared(f, inputs.readings);
    var complete := Complete(RowsBy(f, inputs.readings));
    CircuitVerdictIgnoresReadings(a, inputs, kept, Lowest(complete), BelowAt(complete));
  }

  /** The same of a circuit. */
  lemma RefusedCircuitLocationsAreIgnored(a: Arithmetic, inputs: Inputs)
    requires PipingDecision(a, inputs).Decided?
    ensures var kept := Remaining(RowOf(a, WallOf(a, Dated(inputs))), inputs.readings);
            PipingDecision(a, inputs.(readings := kept)) == PipingDecision(a, inputs)
  {
    var f := RowOf(a, WallOf(a, Dated(inputs)));
    assert WallOf(a, Dated(inputs.(readings := Remaining(f, inputs.readings)))) == WallOf(a, Dated(inputs));
    PipingDecidedIff(a, inputs);
    DroppedChangeNoCircuit(a, f, inputs);
  }

  /** A current reading that is there but is no length: three formulas refuse, and nothing is asked for. */
  lemma WrongReadingDropsOut(a: Arithmetic, wall: Wall, r: Reading)
    requires IsWrong(r.current) && r.previous.Some?
    requires wall.nominal.Some? && wall.tMin.Some? && wall.between.Some? && wall.inService.Some?
    ensures DropsOut(Chain(a, wall, r)) && !Questioned(wall.nominal, r)
    ensures Chain(a, wall, r).refused == [ShortTermRate, LongTermRate, BelowTMin]
  {
    var row := Chain(a, wall, r);
    assert row.missing == {ShortRate, LongRate, Rate};
  }

  /** So such a reading added to any decided vessel leaves the decision as it was. */
  lemma WrongReadingIsIgnored(a: Arithmetic, inputs: Inputs, r: Reading)
    requires VesselDecision(a, inputs).Decided? && IsWrong(r.current) && r.previous.Some?
    ensures var more := inputs.(readings := inputs.readings + [r]);
            VesselDecision(a, more) == VesselDecision(a, inputs) && DropsOut(RowOf(a, WallOf(a, more))(r))
  {
    var f, more := RowOf(a, WallOf(a, inputs)), inputs.(readings := inputs.readings + [r]);
    assert WallOf(a, more) == WallOf(a, inputs);
    VesselDecidedIff(a, inputs);
    DecidedWallIsKnown(a, inputs);
    WrongReadingDropsOut(a, WallOf(a, inputs), r);
    AddedDropsOut(a, f, inputs, r);
  }

  lemma DecidedWallIsKnown(a: Arithmetic, inputs: Inputs)
    requires VesselDecision(a, inputs).Decided?
    ensures var wall := WallOf(a, inputs);
            wall.nominal.Some? && wall.tMin.Some? && wall.between.Some? && wall.inService.Some?
  {
    VesselDecidedIff(a, inputs);
    var r :| r in inputs.readings && RowOf(a, WallOf(a, inputs))(r).complete;
  }

  lemma AddedStaysReady(f: Reading -> Row, inputs: Inputs, r: Reading)
    requires Ready(f, inputs) && DropsOut(f(r)) && !Questioned(inputs.nominal, r)
    ensures Ready(f, inputs.(readings := inputs.readings + [r]))
  {
    var t :| t in inputs.readings && f(t).complete;
    assert t in inputs.readings + [r];
  }

  lemma AddedDropsOut(a: Arithmetic, f: Reading -> Row, inputs: Inputs, r: Reading)
    requires Ready(f, inputs) && DropsOut(f(r)) && !Questioned(inputs.nominal, r)
    ensures var more := inputs.readings + [r];
            VesselFrom(a, inputs.(readings := more), RowsBy(f, more)) == VesselFrom(a, inputs, RowsBy(f, inputs.readings))
  {
    var more, complete := inputs.readings + [r], Complete(RowsBy(f, inputs.readings));
    AddedStaysReady(f, inputs, r);
    CompleteOneMore(f, inputs.readings, r);
    assert Complete(RowsBy(f, more)) == complete;
    ReadyIsDecided(a, f, inputs);
    ReadyIsDecided(a, f, inputs.(readings := more));
    VerdictIgnoresReadings(a, inputs, more, Lowest(complete), BelowAt(complete));
  }
}
