/**
 What the order of the readings can and cannot change in an assessment
 (backend/engineering/assessment.py): the governing row is the first of those with
 the least life.
 */
module AssessmentOrder {
  import opened Wrappers
  import opened Rounding
  import opened Assessment
  import W = AssessmentWithdrawal

  // --- what no order changes -----------------------------------------------

  ghost predicate SameReadings(one: seq<Reading>, other: seq<Reading>)
  {
    forall r :: r in one <==> r in other
  }

  lemma SameLowest(f: Reading -> Row, inputs: Inputs, other: seq<Reading>)
    requires SameReadings(inputs.readings, other) && Ready(f, inputs)
    ensures Complete(RowsBy(f, inputs.readings)) != [] && Complete(RowsBy(f, other)) != []
    ensures Gaps(inputs, RowsBy(f, inputs.readings)) == [] && Gaps(inputs.(readings := other), RowsBy(f, other)) == []
    ensures Lowest(Complete(RowsBy(f, inputs.readings))).life == Lowest(Complete(RowsBy(f, other))).life
  {
    assert Ready(f, inputs.(readings := other));
    NoGapsIff(f, inputs);
    NoGapsIff(f, inputs.(readings := other));
    LowestOf(f, inputs.readings);
    LowestOf(f, other);
  }

  lemma SameBelow(f: Reading -> Row, one: seq<Reading>, other: seq<Reading>)
    requires SameReadings(one, other)
    ensures var p, q := BelowAt(Complete(RowsBy(f, one))), BelowAt(Complete(RowsBy(f, other)));
            (forall x :: x in p <==> x in q) && (p == [] <==> q == [])
  {
    BelowOf(f, one);
    BelowOf(f, other);
    var p, q := BelowAt(Complete(RowsBy(f, one))), BelowAt(Complete(RowsBy(f, other)));
    if p != [] {
      assert p[0] in p;
    }
    if q != [] {
      assert q[0] in q;
    }
  }

  ghost predicate Agree(d: Decision, e: Decision)
  {
    && (d.Decided? <==> e.Decided?)
    && (d.Decided? ==>
          && d.life == e.life && (forall x :: x in d.below <==> x in e.below)
          && d.severity == e.severity && d.schedule == e.schedule && d.withdraw == e.withdraw)
  }

  lemma SameVerdicts(a: Arithmetic, inputs: Inputs, other: seq<Reading>, g: Row, h: Row, p: seq<string>, q: seq<string>)
    requires g.life == h.life && (forall x :: x in p <==> x in q) && (p == [] <==> q == [])
    ensures Agree(VesselVerdict(a, inputs, g, p), VesselVerdict(a, inputs.(readings := other), h, q))
    ensures Agree(PipingVerdict(a, inputs, g, p), PipingVerdict(a, inputs.(readings := other), h, q))
  {
  }

  lemma ReadyReordered(f: Reading -> Row, inputs: Inputs, other: seq<Reading>)
    requires SameReadings(inputs.readings, other)
    ensures Ready(f, inputs) <==> Ready(f, inputs.(readings := other))
  {
  }

  lemma DecidedIffReady(a: Arithmetic, f: Reading -> Row, inputs: Inputs)
    ensures VesselFrom(a, inputs, RowsBy(f, inputs.readings)).Decided? <==> Ready(f, inputs)
    ensures PipingFrom(a, inputs, RowsBy(f, inputs.readings)).Decided? <==> Ready(f, inputs)
  {
    NoGapsIff(f, inputs);
  }

  lemma SameElementsAgree(a: Arithmetic, f: Reading -> Row, inputs: Inputs, other: seq<Reading>)
    requires SameReadings(inputs.readings, other)
    ensures Agree(VesselFrom(a, inputs, RowsBy(f, inputs.readings)), VesselFrom(a, inputs.(readings := other), RowsBy(f, other)))
    ensures Agree(PipingFrom(a, inputs, RowsBy(f, inputs.readings)), PipingFrom(a, inputs.(readings := other), RowsBy(f, other)))
  {
    ReadyReordered(f, inputs, other);
    DecidedIffReady(a, f, inputs);
    DecidedIffReady(a, f, inputs.(readings := other));
    if Ready(f, inputs) {
      ReadyIsDecided(a, f, inputs);
      ReadyIsDecided(a, f, inputs.(readings := other));
      ReadyCircuitIsDecided(a, f, inputs);
      ReadyCircuitIsDecided(a, f, inputs.(readings := other));
      SameLowest(f, inputs, other);
      SameBelow(f, inputs.readings, other);
      var one, two := Complete(RowsBy(f, inputs.readings)), Complete(RowsBy(f, other));
      SameVerdicts(a, inputs, other, Lowest(one), Lowest(two), BelowAt(one), BelowAt(two));
    }
  }

  /**
   In what order the readings come, and whether one is listed twice, changes neither the governing
   life, nor the set of locations below t-min, nor the severity, schedule or withdrawal.
   */
  lemma OrderDoesNotMatter(a: Arithmetic, inputs: Inputs, other: seq<Reading>)
    requires SameReadings(inputs.readings, other)
    ensures Agree(VesselDecision(a, inputs), VesselDecision(a, inputs.(readings := other)))
    ensures Agree(PipingDecision(a, inputs), PipingDecision(a, inputs.(readings := other)))
  {
    assert WallOf(a, inputs.(readings := other)) == WallOf(a, inputs);
    assert WallOf(a, Dated(inputs.(readings := other))) == WallOf(a, Dated(inputs));
    SameElementsAgree(a, RowOf(a, WallOf(a, inputs)), inputs, other);
    SameElementsAgree(a, RowOf(a, WallOf(a, Dated(inputs))), inputs, other);
  }

  // --- which row governs ---------------------------------------------------

  /** The same readings, one for one, in some order. */
  ghost predicate Reordered(readings: seq<Reading>, other: seq<Reading>)
  {
    multiset(readings) == multiset(other)
  }

  lemma ReorderedAreSame(readings: seq<Reading>, other: seq<Reading>)
    requires Reordered(readings, other)
    ensures SameReadings(readings, other)
  {
    forall r
      ensures r in readings <==> r in other
    {
      assert r in readings <==> r in multiset(readings);
      assert r in other <==> r in multiset(other);
    }
  }

  /** Computed in full, and no location computed in full has less life. */
  ghost predicate Least(f: Reading -> Row, readings: seq<Reading>, r: Reading)
  {
    r in readings && f(r).complete && forall t :: t in readings && f(t).complete ==> !Less(f(t).life, f(r).life)
  }

  function ToFront(readings: seq<Reading>, i: nat): seq<Reading>
    requires i < |readings|
  {
    [readings[i]] + (readings[..i] + readings[i + 1..])
  }

  lemma ToFrontReorders(readings: seq<Reading>, i: nat)
    requires i < |readings|
    ensures Reordered(readings, ToFront(readings, i))
  {
    var r, before, after := readings[i], readings[..i], readings[i + 1..];
    assert readings == before + [r] + after;
    assert multiset(readings) == multiset(before) + multiset{r} + multiset(after);
    assert multiset(ToFront(readings, i)) == multiset{r} + (multiset(before) + multiset(after));
  }

  lemma {:induction false} FirstCompleteStays(f: Reading -> Row, readings: seq<Reading>)
    requires readings != [] && f(readings[0]).complete
    ensures Complete(RowsBy(f, readings)) != [] && Complete(RowsBy(f, readings))[0] == f(readings[0])
  {
    var front, last := readings[..|readings| - 1], readings[|readings| - 1];
    assert readings == front + [last];
    CompleteOneMore(f, front, last);
    if |readings| > 1 {
      FirstCompleteStays(f, front);
    } else {
      assert front == [] && Complete(RowsBy(f, front)) == [];
    }
  }

  lemma {:induction false} FirstOfLeastGoverns(rows: seq<Row>)
    requires rows != [] && forall x :: x in rows ==> !Less(x.life, rows[0].life)
    ensures Lowest(rows) == rows[0]
  {
    if |rows| > 1 {
      var front := rows[..|rows| - 1];
      assert forall x :: x in front ==> x in rows;
      assert front[0] == rows[0];
      FirstOfLeastGoverns(front);
    }
  }

  /** Whichever reading of least life comes first governs. */
  lemma LeastInFrontGoverns(f: Reading -> Row, readings: seq<Reading>)
    requires readings != [] && Least(f, readings, readings[0])
    ensures Complete(RowsBy(f, readings)) != []
    ensures Lowest(Complete(RowsBy(f, readings))) == f(readings[0])
  {
    var complete := Complete(RowsBy(f, readings));
    FirstCompleteStays(f, readings);
    RowsOfReadings(f, readings);
    CompleteKeeps(RowsBy(f, readings));
    FirstOfLeastGoverns(complete);
  }

  /** The rows some order makes govern are exactly those of least life. */
  lemma MayGovernIff(f: Reading -> Row, readings: seq<Reading>, row: Row)
    requires exists r :: r in readings && f(r).complete
    ensures (exists other :: Reordered(readings, other)
               && Complete(RowsBy(f, other)) != [] && Lowest(Complete(RowsBy(f, other))) == row)
            <==> exists r :: Least(f, readings, r) && f(r) == row
  {
    if r :| Least(f, readings, r) && f(r) == row {
      var other := PutFirst(f, readings, r);
      assert Reordered(readings, other);
    }
    forall other | Reordered(readings, other) && Complete(RowsBy(f, other)) != []
      ensures exists r :: Least(f, readings, r) && f(r) == Lowest(Complete(RowsBy(f, other)))
    {
      GoverningIsLeast(f, readings, other);
    }
  }

  lemma PutFirst(f: Reading -> Row, readings: seq<Reading>, r: Reading) returns (other: seq<Reading>)
    requires Least(f, readings, r)
    ensures Reordered(readings, other) && Complete(RowsBy(f, other)) != []
    ensures Lowest(Complete(RowsBy(f, other))) == f(r)
  {
    var i :| 0 <= i < |readings| && readings[i] == r;
    other := ToFront(readings, i);
    ToFrontReorders(readings, i);
    ReorderedAreSame(readings, other);
    LeastInFrontGoverns(f, other);
  }

  lemma GoverningIsLeast(f: Reading -> Row, readings: seq<Reading>, other: seq<Reading>)
    requires Reordered(readings, other) && Complete(RowsBy(f, other)) != []
    ensures exists r :: Least(f, readings, r) && f(r) == Lowest(Complete(RowsBy(f, other)))
  {
    ReorderedAreSame(readings, other);
    LowestOf(f, other);
    var r :| r in other && f(r) == Lowest(Complete(RowsBy(f, other)));
    assert Least(f, readings, r);
  }

  // --- what the order can change -------------------------------------------

  /** What is assessed: a vessel, or a piping circuit, whose years come from its dates alone. */
  datatype Subject = Vessel | Circuit

  function RowsOf(a: Arithmetic, inputs: Inputs, s: Subject): Reading -> Row
  {
    RowOf(a, WallOf(a, if s.Vessel? then inputs else Dated(inputs)))
  }

  function DecisionOn(a: Arithmetic, inputs: Inputs, s: Subject): Decision
  {
    if s.Vessel? then VesselDecision(a, inputs) else PipingDecision(a, inputs)
  }

  function VerdictOn(a: Arithmetic, inputs: Inputs, s: Subject, g: Row, below: seq<string>): Decision
  {
    if s.Vessel? then VesselVerdict(a, inputs, g, below) else PipingVerdict(a, inputs, g, below)
  }

  /** The decision with the readings in another order. */
  ghost function Ordered(a: Arithmetic, inputs: Inputs, s: Subject, other: seq<Reading>): Decision
  {
    DecisionOn(a, inputs.(readings := other), s)
  }

  function GoverningOf(d: Decision): Option<string>
  {
    if d.Decided? then Some(d.governing) else None
  }

  function LossOf(d: Decision): Option<real>
  {
    if d.Decided? then d.loss else None
  }

  function TriggersIn(d: Decision): set<Trigger>
  {
    if d.Decided? then d.triggers else {}
  }

  function RateIn(d: Decision): Option<real>
  {
    if d.Decided? then d.rate else None
  }

  /** Which rate governs, where there is a rate. */
  function LongGovernsIn(d: Decision): bool
  {
    d.Decided? && d.longGoverns
  }

  function InterimIn(d: Decision): Option<bool>
  {
    if d.Decided? then d.interim else None
  }

  predicate OverAQuarter(loss: Option<real>)
  {
    loss.Some? && loss.value > 25.0
  }

  /** Every order of the readings gives the same. */
  ghost predicate Fixed<T(!new)>(a: Arithmetic, inputs: Inputs, s: Subject, field: Decision -> T)
  {
    forall p, q :: Reordered(inputs.readings, p) && Reordered(inputs.readings, q) ==>
      field(Ordered(a, inputs, s, p)) == field(Ordered(a, inputs, s, q))
  }

  /** All rows of least life say the same. */
  ghost predicate LeastAgree<T(!new)>(f: Reading -> Row, readings: seq<Reading>, onRow: Row -> T)
  {
    forall r, t :: Least(f, readings, r) && Least(f, readings, t) ==> onRow(f(r)) == onRow(f(t))
  }

  ghost predicate FollowsRow<T(!new)>(a: Arithmetic, inputs: Inputs, s: Subject, anyBelow: bool, field: Decision -> T, onRow: Row -> T)
  {
    forall other, row, below :: (below != [] <==> anyBelow) ==>
      field(VerdictOn(a, inputs.(readings := other), s, row, below)) == onRow(row)
  }

  lemma OrderedIs(a: Arithmetic, inputs: Inputs, s: Subject, other: seq<Reading>)
    requires DecisionOn(a, inputs, s).Decided? && Reordered(inputs.readings, other)
    ensures var f := RowsOf(a, inputs, s);
            var complete := Complete(RowsBy(f, other));
            && complete != []
            && Ordered(a, inputs, s, other) == VerdictOn(a, inputs.(readings := other), s, Lowest(complete), BelowAt(complete))
            && (BelowAt(complete) != [] <==> BelowAt(Complete(RowsBy(f, inputs.readings))) != [])
  {
    var f := RowsOf(a, inputs, s);
    ReorderedAreSame(inputs.readings, other);
    VesselDecidedIff(a, inputs);
    PipingDecidedIff(a, inputs);
    assert RowsOf(a, inputs.(readings := other), s) == f;
    ReadyReordered(f, inputs, other);
    ReadyIsDecided(a, f, inputs.(readings := other));
    ReadyCircuitIsDecided(a, f, inputs.(readings := other));
    SameBelow(f, inputs.readings, other);
  }

  function AnyBelow(a: Arithmetic, inputs: Inputs, s: Subject): bool
  {
    BelowAt(Complete(RowsBy(RowsOf(a, inputs, s), inputs.readings))) != []
  }

  lemma OrderedFollowsLeast<T(!new)>(
      a: Arithmetic, inputs: Inputs, s: Subject, other: seq<Reading>, anyBelow: bool, field: Decision -> T, onRow: Row -> T) returns (r: Reading)
    requires DecisionOn(a, inputs, s).Decided? && Reordered(inputs.readings, other)
    requires anyBelow <==> AnyBelow(a, inputs, s)
    requires FollowsRow(a, inputs, s, anyBelow, field, onRow)
    ensures Least(RowsOf(a, inputs, s), inputs.readings, r)
    ensures field(Ordered(a, inputs, s, other)) == onRow(RowsOf(a, inputs, s)(r))
  {
    var f := RowsOf(a, inputs, s);
    OrderedIs(a, inputs, s, other);
    GoverningIsLeast(f, inputs.readings, other);
    r :| Least(f, inputs.readings, r) && f(r) == Lowest(Complete(RowsBy(f, other)));
  }

  lemma LeastIsReached<T(!new)>(
      a: Arithmetic, inputs: Inputs, s: Subject, r: Reading, anyBelow: bool, field: Decision -> T, onRow: Row -> T) returns (other: seq<Reading>)
    requires DecisionOn(a, inputs, s).Decided? && Least(RowsOf(a, inputs, s), inputs.readings, r)
    requires anyBelow <==> AnyBelow(a, inputs, s)
    requires FollowsRow(a, inputs, s, anyBelow, field, onRow)
    ensures Reordered(inputs.readings, other)
    ensures field(Ordered(a, inputs, s, other)) == onRow(RowsOf(a, inputs, s)(r))
  {
    other := PutFirst(RowsOf(a, inputs, s), inputs.readings, r);
    OrderedIs(a, inputs, s, other);
  }

  lemma AgreeingIsFixed<T(!new)>(a: Arithmetic, inputs: Inputs, s: Subject, anyBelow: bool, field: Decision -> T, onRow: Row -> T)
    requires DecisionOn(a, inputs, s).Decided? && FollowsRow(a, inputs, s, anyBelow, field, onRow)
    requires anyBelow <==> AnyBelow(a, inputs, s)
    requires LeastAgree(RowsOf(a, inputs, s), inputs.readings, onRow)
    ensures Fixed(a, inputs, s, field)
  {
    forall p, q | Reordered(inputs.readings, p) && Reordered(inputs.readings, q)
      ensures field(Ordered(a, inputs, s, p)) == field(Ordered(a, inputs, s, q))
    {
      var r := OrderedFollowsLeast(a, inputs, s, p, anyBelow, field, onRow);
      var t := OrderedFollowsLeast(a, inputs, s, q, anyBelow, field, onRow);
    }
  }

  lemma FixedIsAgreeing<T(!new)>(a: Arithmetic, inputs: Inputs, s: Subject, anyBelow: bool, field: Decision -> T, onRow: Row -> T)
    requires DecisionOn(a, inputs, s).Decided? && FollowsRow(a, inputs, s, anyBelow, field, onRow)
    requires anyBelow <==> AnyBelow(a, inputs, s)
    requires Fixed(a, inputs, s, field)
    ensures LeastAgree(RowsOf(a, inputs, s), inputs.readings, onRow)
  {
    var f := RowsOf(a, inputs, s);
    forall r, t | Least(f, inputs.readings, r) && Least(f, inputs.readings, t)
      ensures onRow(f(r)) == onRow(f(t))
    {
      var p := LeastIsReached(a, inputs, s, r, anyBelow, field, onRow);
      var q := LeastIsReached(a, inputs, s, t, anyBelow, field, onRow);
    }
  }

  lemma FixedIff<T(!new)>(a: Arithmetic, inputs: Inputs, s: Subject, anyBelow: bool, field: Decision -> T, onRow: Row -> T)
    requires DecisionOn(a, inputs, s).Decided? && FollowsRow(a, inputs, s, anyBelow, field, onRow)
    requires anyBelow <==> AnyBelow(a, inputs, s)
    ensures Fixed(a, inputs, s, field) <==> LeastAgree(RowsOf(a, inputs, s), inputs.readings, onRow)
  {
    if Fixed(a, inputs, s, field) {
      FixedIsAgreeing(a, inputs, s, anyBelow, field, onRow);
    } else if LeastAgree(RowsOf(a, inputs, s), inputs.readings, onRow) {
      AgreeingIsFixed(a, inputs, s, anyBelow, field, onRow);
    }
  }

  /**
   Location, rate, which rate it is, metal loss and triggers are the same for every order of the readings
   exactly when the rows of least life agree on them; for the triggers, on whether more than a quarter is
   lost. The interim limit follows the triggers.
   */
  lemma OrderFixesIff(a: Arithmetic, inputs: Inputs)
    requires DecisionOn(a, inputs, Vessel).Decided?
    ensures var f, readings := RowsOf(a, inputs, Vessel), inputs.readings;
            && (Fixed(a, inputs, Vessel, GoverningOf) <==> LeastAgree(f, readings, (row: Row) => row.location))
            && (Fixed(a, inputs, Vessel, RateIn) <==> LeastAgree(f, readings, (row: Row) => row.rate))
            && (Fixed(a, inputs, Vessel, LongGovernsIn) <==> LeastAgree(f, readings, (row: Row) => row.longGoverns))
            && (Fixed(a, inputs, Vessel, LossOf) <==> LeastAgree(f, readings, (row: Row) => LossAt(a, inputs.nominal, row.current)))
            && (Fixed(a, inputs, Vessel, TriggersIn) <==>
                  LeastAgree(f, readings, (row: Row) => OverAQuarter(LossAt(a, inputs.nominal, row.current))))
            && (Fixed(a, inputs, Vessel, TriggersIn) ==> Fixed(a, inputs, Vessel, InterimIn))
  {
    LocationFixedIff(a, inputs, Vessel);
    RateFixedIff(a, inputs, Vessel);
    WhichRateFixedIff(a, inputs, Vessel);
    if Fixed(a, inputs, Vessel, TriggersIn) {
      InterimFollowsTriggers(a, inputs);
    }
    LossFixedIff(a, inputs);
    TriggersFixedIff(a, inputs);
  }

  function RowTriggers(a: Arithmetic, inputs: Inputs, anyBelow: bool): Row -> set<Trigger>
  {
    (row: Row) => TriggersOf(anyBelow, row.life, LossAt(a, inputs.nominal, row.current))
  }

  function RowInterim(a: Arithmetic, inputs: Inputs, anyBelow: bool): Row -> Option<bool>
  {
    (row: Row) => InterimAt(a, inputs, anyBelow, row.life, RowTriggers(a, inputs, anyBelow)(row))
  }

  lemma InterimFollowsRow(a: Arithmetic, inputs: Inputs, anyBelow: bool)
    ensures FollowsRow(a, inputs, Vessel, anyBelow, InterimIn, RowInterim(a, inputs, anyBelow))
  {
    forall other, row, below | below != [] <==> anyBelow
      ensures InterimIn(VesselVerdict(a, inputs.(readings := other), row, below)) == RowInterim(a, inputs, anyBelow)(row)
    {
      VerdictIgnoresReadings(a, inputs, other, row, below);
      var d, triggers := VesselVerdict(a, inputs, row, below), RowTriggers(a, inputs, anyBelow)(row);
      assert d.triggers == TriggersOf(anyBelow, row.life, LossAt(a, inputs.nominal, row.current)) == triggers;
      assert d.interim == InterimAt(a, inputs, anyBelow, row.life, triggers);
    }
  }

  lemma LeastInterimAgree(a: Arithmetic, f: Reading -> Row, inputs: Inputs, anyBelow: bool)
    requires LeastAgree(f, inputs.readings, RowTriggers(a, inputs, anyBelow))
    ensures LeastAgree(f, inputs.readings, RowInterim(a, inputs, anyBelow))
  {
    forall r, t | Least(f, inputs.readings, r) && Least(f, inputs.readings, t)
      ensures RowInterim(a, inputs, anyBelow)(f(r)) == RowInterim(a, inputs, anyBelow)(f(t))
    {
      assert f(r).life == f(t).life;
      assert RowTriggers(a, inputs, anyBelow)(f(r)) == RowTriggers(a, inputs, anyBelow)(f(t));
    }
  }

  lemma InterimFollowsTriggers(a: Arithmetic, inputs: Inputs)
    requires DecisionOn(a, inputs, Vessel).Decided? && Fixed(a, inputs, Vessel, TriggersIn)
    ensures Fixed(a, inputs, Vessel, InterimIn)
  {
    var any := AnyBelow(a, inputs, Vessel);
    FixedIsAgreeing(a, inputs, Vessel, any, TriggersIn, RowTriggers(a, inputs, any));
    LeastInterimAgree(a, RowsOf(a, inputs, Vessel), inputs, any);
    InterimFollowsRow(a, inputs, any);
    AgreeingIsFixed(a, inputs, Vessel, any, InterimIn, RowInterim(a, inputs, any));
  }

  function InterimAt(a: Arithmetic, inputs: Inputs, anyBelow: bool, life: Life, triggers: set<Trigger>): Option<bool>
  {
    var survey := VesselSurvey(a, inputs, anyBelow, life);
    InterimLimit(a, inputs, triggers, anyBelow || (survey.Some? && survey.value.withdraw))
  }

  lemma LocationFixedIff(a: Arithmetic, inputs: Inputs, s: Subject)
    requires DecisionOn(a, inputs, s).Decided?
    ensures Fixed(a, inputs, s, GoverningOf) <==> LeastAgree(RowsOf(a, inputs, s), inputs.readings, (row: Row) => row.location)
  {
    FixedIff(a, inputs, s, AnyBelow(a, inputs, s), GoverningOf, (row: Row) => Some(row.location));
  }

  lemma RateFixedIff(a: Arithmetic, inputs: Inputs, s: Subject)
    requires DecisionOn(a, inputs, s).Decided?
    ensures Fixed(a, inputs, s, RateIn) <==> LeastAgree(RowsOf(a, inputs, s), inputs.readings, (row: Row) => row.rate)
  {
    FixedIff(a, inputs, s, AnyBelow(a, inputs, s), RateIn, (row: Row) => row.rate);
  }

  lemma WhichRateFixedIff(a: Arithmetic, inputs: Inputs, s: Subject)
    requires DecisionOn(a, inputs, s).Decided?
    ensures Fixed(a, inputs, s, LongGovernsIn) <==>
            LeastAgree(RowsOf(a, inputs, s), inputs.readings, (row: Row) => row.longGoverns)
  {
    FixedIff(a, inputs, s, AnyBelow(a, inputs, s), LongGovernsIn, (row: Row) => row.longGoverns);
  }

  /** Of a circuit the same: location, rate and which rate it is. */
  lemma OrderFixesCircuitIff(a: Arithmetic, inputs: Inputs)
    requires PipingDecision(a, inputs).Decided?
    ensures var f, readings := RowsOf(a, inputs, Circuit), inputs.readings;
            && (Fixed(a, inputs, Circuit, GoverningOf) <==> LeastAgree(f, readings, (row: Row) => row.location))
            && (Fixed(a, inputs, Circuit, RateIn) <==> LeastAgree(f, readings, (row: Row) => row.rate))
            && (Fixed(a, inputs, Circuit, LongGovernsIn) <==> LeastAgree(f, readings, (row: Row) => row.longGoverns))
  {
    LocationFixedIff(a, inputs, Circuit);
    RateFixedIff(a, inputs, Circuit);
    WhichRateFixedIff(a, inputs, Circuit);
  }

  lemma LossFixedIff(a: Arithmetic, inputs: Inputs)
    requires DecisionOn(a, inputs, Vessel).Decided?
    ensures Fixed(a, inputs, Vessel, LossOf) <==>
            LeastAgree(RowsOf(a, inputs, Vessel), inputs.readings, (row: Row) => LossAt(a, inputs.nominal, row.current))
  {
    FixedIff(a, inputs, Vessel, AnyBelow(a, inputs, Vessel), LossOf, (row: Row) => LossAt(a, inputs.nominal, row.current));
  }

  lemma TriggersFixedIff(a: Arithmetic, inputs: Inputs)
    requires DecisionOn(a, inputs, Vessel).Decided?
    ensures Fixed(a, inputs, Vessel, TriggersIn) <==>
            LeastAgree(RowsOf(a, inputs, Vessel), inputs.readings,
                       (row: Row) => OverAQuarter(LossAt(a, inputs.nominal, row.current)))
  {
    var anyBelow := AnyBelow(a, inputs, Vessel);
    FixedIff(a, inputs, Vessel, anyBelow, TriggersIn, RowTriggers(a, inputs, anyBelow));
    LeastTriggersAgreeIff(a, RowsOf(a, inputs, Vessel), inputs, anyBelow);
  }

  lemma LeastTriggersAgreeIff(a: Arithmetic, f: Reading -> Row, inputs: Inputs, anyBelow: bool)
    ensures LeastAgree(f, inputs.readings, RowTriggers(a, inputs, anyBelow))
            <==> LeastAgree(f, inputs.readings, (row: Row) => OverAQuarter(LossAt(a, inputs.nominal, row.current)))
  {
    forall r, t | Least(f, inputs.readings, r) && Least(f, inputs.readings, t)
      ensures TriggersOf(anyBelow, f(r).life, LossAt(a, inputs.nominal, f(r).current))
              == TriggersOf(anyBelow, f(t).life, LossAt(a, inputs.nominal, f(t).current))
              <==> (OverAQuarter(LossAt(a, inputs.nominal, f(r).current)) <==> OverAQuarter(LossAt(a, inputs.nominal, f(t).current)))
    {
      assert f(r).life == f(t).life;
      TriggersAgreeIff(anyBelow, f(r).life, LossAt(a, inputs.nominal, f(r).current), LossAt(a, inputs.nominal, f(t).current));
    }
  }

  lemma TriggersAgreeIff(anyBelow: bool, life: Life, one: Option<real>, other: Option<real>)
    ensures TriggersOf(anyBelow, life, one) == TriggersOf(anyBelow, life, other) <==> (OverAQuarter(one) <==> OverAQuarter(other))
  {
    assert LossOverAQuarter in TriggersOf(anyBelow, life, one) <==> OverAQuarter(one);
    assert LossOverAQuarter in TriggersOf(anyBelow, life, other) <==> OverAQuarter(other);
  }

  // --- a report where it does ----------------------------------------------

  const TIED_WALL: Wall := Wall(Some(Known(10.0)), Some(Known(4.0)), Some(Known(1.0)), Some(Known(100.0)))

  function TiedReport(): Inputs
  {
    Inputs([SHELL, HEAD], TIED_WALL.nominal, TIED_WALL.tMin,
           TIED_WALL.between, TIED_WALL.inService, None, None, None, None, None, None, None, None)
  }

  lemma TiedRow(location: string, previous: real, current: real, rate: int, long: int)
    requires 4.0 <= current < previous && current - 4.0 == 10.0 * (previous - current)
    requires previous - current == rate as real / 1000000.0 && (10.0 - current) / 100.0 == long as real / 1000000.0
    requires 0 < long <= rate
    ensures Chain(Computed(), TIED_WALL, At(location, previous, current)) ==
            Row(location, Some(Known(current)), Some(previous - current), false, Limited(10.0), false, true, {}, [])
  {
    var a, r, lost := Computed(), At(location, previous, current), previous - current;
    RoundKeepsUnits(lost, 1000000.0, rate);
    RoundKeepsUnits((10.0 - current) / 100.0, 1000000.0, long);
    RoundKeepsUnits(10.0, 100.0, 1000);
    var short := LossRate(a, r.previous, TPrevious, r.current, TIED_WALL.between, YearsBetween);
    assert lost / 1.0 == lost;
    assert short == Done(lost);
    var long' := LossRate(a, TIED_WALL.nominal, TNominal, r.current, TIED_WALL.inService, YearsInService);
    assert long' == Done((10.0 - current) / 100.0);
    assert Governing(a, AsBound(short), AsBound(long')) == Done((lost, false));
    assert (current - 4.0) / lost == 10.0;
    assert LifeLeft(a, r.current, TIED_WALL.tMin, Some(Known(lost))) == Done(Limited(10.0));
  }

  /** Two locations tied at ten years of life, one of which has lost more than a quarter: the order decides the trigger. */
  lemma TiedLocationsFollowTheOrder()
    ensures VesselDecision(Computed(), TiedReport()).Decided?
    ensures !Fixed(Computed(), TiedReport(), Vessel, GoverningOf) && !Fixed(Computed(), TiedReport(), Vessel, TriggersIn)
  {
    TiedRows();
    var f := RowOf(Computed(), TIED_WALL);
    assert WallOf(Computed(), TiedReport()) == TIED_WALL;
    TiedIsReady(f, TiedReport(), SHELL, HEAD);
    VesselDecidedIff(Computed(), TiedReport());
    DifferingLeastMoveIt(Computed(), TiedReport(), SHELL, HEAD);
  }

  const SHELL: Reading := At("Shell", 7.74, 7.4)

  const HEAD: Reading := At("Head", 7.96, 7.6)

  lemma TiedRows()
    ensures var f := RowOf(Computed(), TIED_WALL);
            && f(SHELL) == Row("Shell", Some(Known(7.4)), Some(0.34), false, Limited(10.0), false, true, {}, [])
            && f(HEAD) == Row("Head", Some(Known(7.6)), Some(0.36), false, Limited(10.0), false, true, {}, [])
    ensures OverAQuarter(LossAt(Computed(), TIED_WALL.nominal, Some(Known(7.4))))
    ensures !OverAQuarter(LossAt(Computed(), TIED_WALL.nominal, Some(Known(7.6))))
  {
    TiedRow("Shell", 7.74, 7.4, 340000, 26000);
    TiedRow("Head", 7.96, 7.6, 360000, 24000);
    TiedLosses();
  }

  lemma DifferingLeastMoveIt(a: Arithmetic, inputs: Inputs, r: Reading, t: Reading)
    requires VesselDecision(a, inputs).Decided?
    requires var f := RowOf(a, WallOf(a, inputs));
             && Least(f, inputs.readings, r) && Least(f, inputs.readings, t)
             && f(r).location != f(t).location
             && OverAQuarter(LossAt(a, inputs.nominal, f(r).current))
             && !OverAQuarter(LossAt(a, inputs.nominal, f(t).current))
    ensures !Fixed(a, inputs, Vessel, GoverningOf) && !Fixed(a, inputs, Vessel, TriggersIn)
  {
    OrderFixesIff(a, inputs);
  }

  lemma TiedIsReady(f: Reading -> Row, inputs: Inputs, first: Reading, second: Reading)
    requires inputs.readings == [first, second] && inputs.nominal.Some? && inputs.tMin.Some?
    requires f(first).complete && f(second).complete && f(first).life == f(second).life
    requires f(first).missing == f(second).missing == {}
    requires !Questioned(inputs.nominal, first) && !Questioned(inputs.nominal, second)
    ensures Ready(f, inputs)
    ensures Least(f, inputs.readings, first) && Least(f, inputs.readings, second)
  {
    assert inputs.readings[0] == first && inputs.readings[1] == second;
    assert first in inputs.readings && second in inputs.readings;
  }

  lemma TiedLosses()
    ensures OverAQuarter(LossAt(Computed(), TIED_WALL.nominal, Some(Known(7.4))))
    ensures !OverAQuarter(LossAt(Computed(), TIED_WALL.nominal, Some(Known(7.6))))
  {
    assert (10.0 - 7.4) / 10.0 * 100.0 == 26.0 && (10.0 - 7.6) / 10.0 * 100.0 == 24.0;
    RoundKeepsUnits(26.0, 10.0, 260);
    RoundKeepsUnits(24.0, 10.0, 240);
  }

  /** The same report with one more reading that is no length is decided, and that location is not compared. */
  lemma TiedReportMayDropALocation(r: Reading)
    requires IsWrong(r.current) && r.previous.Some?
    ensures var more := TiedReport().(readings := TiedReport().readings + [r]);
            && VesselDecision(Computed(), more).Decided?
            && W.DropsOut(RowOf(Computed(), WallOf(Computed(), more))(r))
  {
    TiedLocationsFollowTheOrder();
    W.WrongReadingIsIgnored(Computed(), TiedReport(), r);
  }
}
