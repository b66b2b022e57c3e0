/**
 Inputs the sources disagree about: how they are found, recorded and resolved, and what they withhold
 (backend/engineering/extraction.py, backend/engineering/stage.py, backend/agents/orchestrator.py).
 */
module DisputedInputs {
  import opened Wrappers
  import V = ClaimVerdicts

  /** Relief tests name their fields by valve and test; what is compared across the tests of one valve has the test `tests`. */
  datatype Field =
    | Tag
    | Scalar(name: string)
    | Reading(location: string, previous: bool)
    | Relief(valve: string, test: string, name: string)
    | Other(name: string)

  /** A value in the form two sources are compared in, as it was written, and the evidence it stands in. */
  datatype Bound = Bound(value: string, stated: string, evidenceId: string)

  datatype Statement = Statement(field: Field, bound: Bound)

  /** What a file or a scan says, in the order it is compared. */
  type Source = seq<Statement>

  datatype Dispute = Dispute(field: Field, values: seq<Bound>)

  /** The values a person chose, by field. */
  type Overrides = map<Field, Bound>

  /** A disagreement no formula reads is recorded and withholds nothing. */
  predicate High(f: Field)
  {
    f != Scalar("design_pressure") && !(f.Relief? && (f.name == "protects" || f.test == "tests"))
  }

  ghost function Fields(disputes: seq<Dispute>): set<Field>
  {
    set d | d in disputes :: d.field
  }

  // --- merging sources -----------------------------------------------------

  datatype Merged = Merged(values: map<Field, Bound>, disputes: seq<Dispute>)

  /** A disagreement joins the one already recorded for its field, unless it repeats a value. */
  function Disputing(disputes: seq<Dispute>, f: Field, mine: Bound, theirs: Bound): seq<Dispute>
  {
    if disputes == [] then [Dispute(f, [mine, theirs])]
    else if disputes[0].field != f then [disputes[0]] + Disputing(disputes[1..], f, mine, theirs)
    else if exists v :: v in disputes[0].values && v.value == theirs.value then disputes
    else [disputes[0].(values := disputes[0].values + [theirs])] + disputes[1..]
  }

  /** The first value stays; one that differs from it is disputed. */
  function MergeOne(m: Merged, s: Statement): Merged
  {
    if s.field !in m.values then m.(values := m.values[s.field := s.bound])
    else if m.values[s.field].value == s.bound.value then m
    else m.(disputes := Disputing(m.disputes, s.field, m.values[s.field], s.bound))
  }

  function MergeAll(said: seq<Statement>): Merged
  {
    if said == [] then Merged(map[], []) else MergeOne(MergeAll(said[..|said| - 1]), said[|said| - 1])
  }

  function Said(sources: seq<Source>): seq<Statement>
  {
    if sources == [] then [] else Said(sources[..|sources| - 1]) + sources[|sources| - 1]
  }

  function Without(disputes: seq<Dispute>, settled: set<Field>): seq<Dispute>
  {
    if disputes == [] then []
    else (if disputes[0].field in settled then [] else [disputes[0]]) + Without(disputes[1..], settled)
  }

  /** A reading is replaced only where its location was read; anything else is set. */
  function OverrideOne(m: Merged, f: Field, bound: Bound): Merged
  {
    Merged(if f.Reading? && f !in m.values then m.values else m.values[f := bound], Without(m.disputes, {f}))
  }

  function Overridden(m: Merged, o: Overrides): Merged
  {
    Merged(map f | f in m.values.Keys + o.Keys && (f in m.values || !f.Reading?) :: if f in o then o[f] else m.values[f],
           Without(m.disputes, o.Keys))
  }

  /** Enough to call it an inspection record. */
  predicate Found(values: map<Field, Bound>)
  {
    (exists f :: f in values && f.Reading?) && (Scalar("nominal") in values || Scalar("t_min") in values)
  }

  function TagOf(source: Source): Option<string>
  {
    if source == [] then None
    else if source[0].field.Tag? then Some(source[0].bound.value)
    else TagOf(source[1..])
  }

  /** A resolved equipment tag leaves out the sources that name another. */
  predicate Fits(source: Source, o: Overrides)
  {
    Tag in o && TagOf(source).Some? ==> TagOf(source).value == o[Tag].value
  }

  function Fitting(sources: seq<Source>, o: Overrides): seq<Source>
  {
    if sources == [] then []
    else Fitting(sources[..|sources| - 1], o) + if Fits(sources[|sources| - 1], o) then [sources[|sources| - 1]] else []
  }

  function Vessel(sources: seq<Source>, o: Overrides): Merged
  {
    Overridden(MergeAll(Said(Fitting(sources, o))), o)
  }

  lemma FieldsCons(d: Dispute, rest: seq<Dispute>)
    ensures Fields([d] + rest) == {d.field} + Fields(rest)
  {
    assert forall x :: x in [d] + rest <==> x == d || x in rest;
  }

  lemma {:induction false} DisputingAdds(disputes: seq<Dispute>, f: Field, mine: Bound, theirs: Bound)
    ensures Fields(Disputing(disputes, f, mine, theirs)) == Fields(disputes) + {f}
  {
    if disputes != [] {
      var first, rest := disputes[0], disputes[1..];
      DisputingAdds(rest, f, mine, theirs);
      assert disputes == [first] + rest;
      FieldsCons(first, rest);
      FieldsCons(first, Disputing(rest, f, mine, theirs));
      FieldsCons(first.(values := first.values + [theirs]), rest);
    } else {
      FieldsCons(Dispute(f, [mine, theirs]), []);
    }
  }

  /** Two statements about one input that differ. */
  ghost predicate Disagree(said: seq<Statement>, f: Field)
  {
    exists i, j :: 0 <= i < |said| && 0 <= j < |said| && said[i].field == said[j].field == f && said[i].bound.value != said[j].bound.value
  }

  ghost predicate States(said: seq<Statement>, f: Field)
  {
    exists i :: 0 <= i < |said| && said[i].field == f
  }

  ghost predicate Differs(said: seq<Statement>, f: Field, value: string)
  {
    exists i :: 0 <= i < |said| && said[i].field == f && said[i].bound.value != value
  }

  lemma OneMoreStated(front: seq<Statement>, last: Statement, f: Field, value: string)
    ensures States(front + [last], f) <==> States(front, f) || last.field == f
    ensures Differs(front + [last], f, value) <==> Differs(front, f, value) || (last.field == f && last.bound.value != value)
  {
    var said := front + [last];
    assert said[|front|] == last && forall i :: 0 <= i < |front| ==> said[i] == front[i];
  }

  lemma {:induction false} MergedIs(said: seq<Statement>, f: Field)
    ensures f in MergeAll(said).values <==> States(said, f)
    ensures f in Fields(MergeAll(said).disputes) <==>
              f in MergeAll(said).values && Differs(said, f, MergeAll(said).values[f].value)
    ensures f in MergeAll(said).values ==>
              exists i :: 0 <= i < |said| && said[i].field == f && said[i].bound == MergeAll(said).values[f]
  {
    if said != [] {
      var n := |said| - 1;
      var front, last := said[..n], said[n];
      assert said == front + [last];
      MergedIs(front, f);
      MergingOneMore(front, last, f);
    }
  }

  lemma MergingOneMore(front: seq<Statement>, last: Statement, f: Field)
    requires f in MergeAll(front).values <==> States(front, f)
    requires f in Fields(MergeAll(front).disputes) <==>
               f in MergeAll(front).values && Differs(front, f, MergeAll(front).values[f].value)
    ensures var m, n := MergeAll(front), MergeOne(MergeAll(front), last);
            && (f in n.values <==> States(front + [last], f))
            && (f in n.values ==> n.values[f] == if f in m.values then m.values[f] else last.bound)
            && (f in Fields(n.disputes) <==> f in n.values && Differs(front + [last], f, n.values[f].value))
  {
    var m := MergeAll(front);
    if last.field in m.values {
      DisputingAdds(m.disputes, last.field, m.values[last.field], last.bound);
    }
    if f in m.values {
      OneMoreStated(front, last, f, m.values[f].value);
    } else {
      OneMoreStated(front, last, f, last.bound.value);
      assert !Differs(front, f, last.bound.value);
    }
  }

  /** Merging records a dispute exactly where two sources disagree, in whatever order they are read. */
  lemma DisputedIff(said: seq<Statement>, f: Field)
    ensures f in Fields(MergeAll(said).disputes) <==> Disagree(said, f)
    ensures Disagree(said, f) ==> f in MergeAll(said).values
  {
    MergedIs(said, f);
  }

  lemma {:induction false} WithoutIs(disputes: seq<Dispute>, settled: set<Field>)
    ensures Fields(Without(disputes, settled)) == Fields(disputes) - settled
  {
    if disputes != [] {
      var first, rest := disputes[0], disputes[1..];
      WithoutIs(rest, settled);
      assert disputes == [first] + rest;
      FieldsCons(first, rest);
      FieldsCons(first, Without(rest, settled));
      assert [] + Without(rest, settled) == Without(rest, settled);
    }
  }

  lemma {:induction false} FittingIsAll(sources: seq<Source>, o: Overrides)
    requires Tag !in o
    ensures Fitting(sources, o) == sources
  {
    if sources != [] {
      FittingIsAll(sources[..|sources| - 1], o);
    }
  }

  // --- the assessment ------------------------------------------------------

  /** The evidence of a run: vessel records, a piping record and whether it could be calculated, and relief tests. */
  datatype Files = Files(
    sources: seq<Source>, piping: Option<bool>, tests: seq<Statement>, across: Overrides -> seq<Dispute>)

  /** Whether the registered formulas have all they need. */
  datatype Formulas = Formulas(vessel: map<Field, Bound> -> bool, relief: map<Field, Bound> -> bool)

  datatype Assessed = Assessed(status: V.Status, disputes: seq<Dispute>)

  /** Vessel records state no relief fields and relief records no others; what spans tests is named as such. */
  ghost predicate WellRead(files: Files)
  {
    && (forall s :: s in Said(files.sources) ==> !s.field.Relief? && !s.field.Other?)
    && (forall s :: s in files.tests ==> s.field.Relief? && s.field.test != "tests")
    && (forall o, d :: d in files.across(o) ==> d.field.Relief? && d.field.test == "tests")
  }

  predicate Blocked(disputes: seq<Dispute>)
  {
    exists i :: 0 <= i < |disputes| && High(disputes[i].field)
  }

  /** While a value a formula reads is disputed nothing is calculated. */
  function Outcome(disputes: seq<Dispute>, calculated: bool): Assessed
  {
    Assessed(if Blocked(disputes) then V.Disputed else if calculated then V.Computed else V.Missing, disputes)
  }

  /** A vessel's records first, then a piping circuit's, then relief tests'. */
  function Assess(files: Files, formulas: Formulas, o: Overrides): Option<Assessed>
  {
    var vessel, relief := Vessel(files.sources, o), Overridden(MergeAll(files.tests), o);
    if Found(vessel.values) then Some(Outcome(vessel.disputes, formulas.vessel(vessel.values)))
    else if files.piping.Some? then Some(Outcome([], files.piping.value))
    else if files.tests != [] then Some(Outcome(relief.disputes + files.across(o), formulas.relief(relief.values)))
    else None
  }

  // --- the record of a run's conflicts -------------------------------------

  /** A conflict of the task, the field it is about and the value a person chose. */
  datatype Record = Record(field: Field, conflict: V.Conflict, chosen: Option<Bound>)

  predicate IsInput(r: Record)
  {
    r.conflict.kind == V.InputConflict
  }

  predicate Open(r: Record)
  {
    V.IsOpenInput(r.conflict)
  }

  function Candidates(values: seq<Bound>): seq<V.Candidate>
  {
    if values == [] then [] else [V.Candidate(values[0].stated, values[0].evidenceId)] + Candidates(values[1..])
  }

  function RecordOf(d: Dispute): Record
  {
    Record(d.field, V.Conflict(V.InputConflict, V.Unresolved, High(d.field), Candidates(d.values), None), None)
  }

  predicate Has(records: seq<Record>, f: Field)
  {
    exists i :: 0 <= i < |records| && records[i].field == f
  }

  /** A conflict already on the task is kept as it is; a field seen for the first time is added. */
  function Recorded(disputes: seq<Dispute>, records: seq<Record>): seq<Record>
  {
    if disputes == [] then records
    else Recorded(disputes[1..], if Has(records, disputes[0].field) then records else records + [RecordOf(disputes[0])])
  }

  /** The values chosen so far. */
  function Chosen(records: seq<Record>): Overrides
  {
    if records == [] then map[]
    else
      var rest, last := Chosen(records[..|records| - 1]), records[|records| - 1];
      if IsInput(last) && last.chosen.Some? then rest[last.field := last.chosen.value] else rest
  }

  // --- a run ---------------------------------------------------------------

  datatype Case = Case(records: seq<Record>, status: Option<V.Status>)

  datatype Move =
    | Note(record: Record)             // a revision or fact conflict is added
    | Resolve(i: nat, bound: Bound)    // a person resolves a conflict

  /** The stage on a task that has no input conflict yet; `stated` is an assessment of values the request itself states. */
  function Stage(files: Files, formulas: Formulas, records: seq<Record>, stated: Option<V.Status>): Case
  {
    match Assess(files, formulas, map[])
    case Some(a) => Case(Recorded(a.disputes, records), Some(a.status))
    case None => Case(records, stated)
  }

  function Settled(r: Record, bound: Bound): Record
  {
    r.(conflict := r.conflict.(status := V.Resolved, resolution := Some(bound.evidenceId)), chosen := Some(bound))
  }

  /** Each resolution reads all the evidence again with every value chosen so far. */
  function Reassessed(files: Files, formulas: Formulas, records: seq<Record>, before: Option<V.Status>): Case
  {
    match Assess(files, formulas, Chosen(records))
    case Some(a) => Case(Recorded(a.disputes, records), Some(a.status))
    case None => Case(records, before)
  }

  function Step(files: Files, formulas: Formulas, c: Case, m: Move): Case
  {
    match m
    case Note(r) => if IsInput(r) || !r.field.Other? then c else c.(records := c.records + [r])
    case Resolve(i, bound) =>
      if i >= |c.records| || c.records[i].conflict.status != V.Unresolved then c
      else Reassessed(files, formulas, c.records[i := Settled(c.records[i], bound)], c.status)
  }

  function Run(files: Files, formulas: Formulas, c: Case, moves: seq<Move>): Case
    decreases |moves|
  {
    if moves == [] then c else Step(files, formulas, Run(files, formulas, c, moves[..|moves| - 1]), moves[|moves| - 1])
  }

  // --- what every run keeps ------------------------------------------------

  /** Every input conflict is about a value the evidence states, is open until a value is chosen, and is the only one on its field. */
  ghost predicate WellKept(files: Files, records: seq<Record>)
  {
    && (forall i :: 0 <= i < |records| ==> WellFormed(files, records[i]))
    && (forall i, j :: 0 <= i < j < |records| && IsInput(records[i]) && IsInput(records[j]) ==> records[i].field != records[j].field)
  }

  ghost predicate WellFormed(files: Files, r: Record)
  {
    if !IsInput(r) then r.field.Other?
    else
      && (r.field.Relief? || r.field in MergeAll(Said(files.sources)).values)
      && r.conflict.high == High(r.field)
      && (r.conflict.status == if r.chosen.Some? then V.Resolved else V.Unresolved)
  }

  /** What the assessment without any choice disputes. */
  ghost function AtFirst(files: Files, formulas: Formulas): set<Field>
  {
    match Assess(files, formulas, map[])
    case Some(a) => Fields(a.disputes)
    case None => {}
  }

  ghost predicate CaseInv(files: Files, formulas: Formulas, c: Case)
  {
    && WellKept(files, c.records)
    && (Tag !in Chosen(c.records) ==>
          forall r :: r in c.records && IsInput(r) && High(r.field) ==> r.field in AtFirst(files, formulas))
    && match Assess(files, formulas, Chosen(c.records))
       case Some(a) => c.status == Some(a.status) && forall f :: f in Fields(a.disputes) ==> Has(c.records, f)
       case None => c.status == Some(V.Disputed) || forall r :: r in c.records ==> !Open(r)
  }

  lemma {:induction false} ChosenIs(records: seq<Record>, f: Field)
    ensures f in Chosen(records) <==>
              exists i :: 0 <= i < |records| && IsInput(records[i]) && records[i].field == f && records[i].chosen.Some?
  {
    if records != [] {
      ChosenIs(records[..|records| - 1], f);
    }
  }

  lemma {:induction false} ChosenElsewhere(records: seq<Record>, i: nat, r: Record, f: Field)
    requires i < |records| && IsInput(r) == IsInput(records[i]) && r.field == records[i].field
    requires f != r.field || !IsInput(r)
    ensures f in Chosen(records[i := r]) <==> f in Chosen(records)
    ensures f in Chosen(records) ==> Chosen(records[i := r])[f] == Chosen(records)[f]
  {
    var n := |records| - 1;
    if i < n {
      ChosenElsewhere(records[..n], i, r, f);
      assert records[i := r][..n] == records[..n][i := r];
    } else {
      assert records[i := r][..n] == records[..n];
    }
  }

  lemma {:induction false} ChosenOneMore(records: seq<Record>, r: Record)
    requires !IsInput(r) || r.chosen.None?
    ensures Chosen(records + [r]) == Chosen(records)
  {
    assert (records + [r])[..|records|] == records;
  }

  lemma {:induction false} RecordedIs(files: Files, disputes: seq<Dispute>, records: seq<Record>)
    requires WellKept(files, records)
    requires forall f :: f in Fields(disputes) ==> !f.Other? && (f.Relief? || f in MergeAll(Said(files.sources)).values)
    ensures var all := Recorded(disputes, records);
            && WellKept(files, all) && Chosen(all) == Chosen(records)
            && (forall f :: Has(all, f) <==> Has(records, f) || f in Fields(disputes))
            && (forall r :: r in all ==> r in records || (r.field in Fields(disputes) && r.chosen.None?))
    decreases |disputes|
  {
    if disputes != [] {
      var d, rest := disputes[0], disputes[1..];
      assert disputes == [d] + rest;
      FieldsCons(d, rest);
      assert d.field in Fields(disputes);
      var more := if Has(records, d.field) then records else records + [RecordOf(d)];
      HasOneMore(records, RecordOf(d));
      ChosenOneMore(records, RecordOf(d));
      RecordedIs(files, rest, more);
    }
  }

  lemma HasOneMore(records: seq<Record>, r: Record)
    ensures forall f :: Has(records + [r], f) <==> Has(records, f) || f == r.field
  {
    var more := records + [r];
    assert more[|records|] == r;
    assert forall i :: 0 <= i < |records| ==> more[i] == records[i];
  }

  // --- how the choices bear on the reading ---------------------------------

  lemma SaidOneMore(sources: seq<Source>, last: Source)
    ensures Said(sources + [last]) == Said(sources) + last
  {
    assert (sources + [last])[..|sources|] == sources;
  }

  lemma {:induction false} SaidIn(sources: seq<Source>, o: Overrides)
    ensures forall s :: s in Said(Fitting(sources, o)) ==> s in Said(sources)
  {
    if sources != [] {
      var front, last := sources[..|sources| - 1], sources[|sources| - 1];
      SaidIn(front, o);
      if Fits(last, o) {
        SaidOneMore(Fitting(front, o), last);
        assert Fitting(sources, o) == Fitting(front, o) + [last];
      } else {
        assert Fitting(sources, o) == Fitting(front, o);
      }
    }
  }

  lemma {:induction false} SameFit(sources: seq<Source>, o: Overrides, p: Overrides)
    requires Tag in o <==> Tag in p
    requires Tag in o ==> o[Tag].value == p[Tag].value
    ensures Fitting(sources, o) == Fitting(sources, p)
  {
    if sources != [] {
      SameFit(sources[..|sources| - 1], o, p);
    }
  }

  /** Of a vessel, what is disputed is what two sources still read disagree about and nobody has chosen. */
  lemma VesselDisputesIff(sources: seq<Source>, o: Overrides, f: Field)
    ensures f in Fields(Vessel(sources, o).disputes) <==> f !in o && Disagree(Said(Fitting(sources, o)), f)
  {
    var m := MergeAll(Said(Fitting(sources, o)));
    WithoutIs(m.disputes, o.Keys);
    DisputedIff(Said(Fitting(sources, o)), f);
  }

  lemma DisagreeingIsStated(sources: seq<Source>, o: Overrides, f: Field)
    requires Disagree(Said(Fitting(sources, o)), f)
    ensures f in MergeAll(Said(sources)).values
    ensures exists s :: s in Said(sources) && s.field == f
  {
    SaidIn(sources, o);
    MergedIs(Said(sources), f);
    var part := Said(Fitting(sources, o));
    var i :| 0 <= i < |part| && part[i].field == f;
    assert part[i] in Said(sources);
  }

  lemma ReliefDisputes(files: Files, o: Overrides, f: Field)
    requires WellRead(files)
    ensures var all := Overridden(MergeAll(files.tests), o).disputes + files.across(o);
            f in Fields(all) ==> f.Relief? && (High(f) ==> f !in o && Disagree(files.tests, f))
    ensures f !in o && Disagree(files.tests, f) ==> f in Fields(Overridden(MergeAll(files.tests), o).disputes + files.across(o))
  {
    var m := MergeAll(files.tests);
    WithoutIs(m.disputes, o.Keys);
    DisputedIff(files.tests, f);
    FieldsOfTwo(Overridden(m, o).disputes, files.across(o));
    if Disagree(files.tests, f) {
      var i :| 0 <= i < |files.tests| && files.tests[i].field == f;
      assert files.tests[i] in files.tests;
    }
  }

  lemma FieldsOfTwo(a: seq<Dispute>, b: seq<Dispute>)
    ensures Fields(a + b) == Fields(a) + Fields(b)
  {
    assert forall d :: d in a + b <==> d in a || d in b;
  }

  lemma AssessedFields(files: Files, formulas: Formulas, o: Overrides, f: Field)
    requires WellRead(files) && Assess(files, formulas, o).Some? && f in Fields(Assess(files, formulas, o).value.disputes)
    ensures !f.Other? && (f.Relief? || f in MergeAll(Said(files.sources)).values)
    ensures High(f) ==> f !in o
  {
    if Found(Vessel(files.sources, o).values) {
      VesselDisputesIff(files.sources, o, f);
      DisagreeingIsStated(files.sources, o, f);
    } else {
      ReliefDisputes(files, o, f);
    }
  }

  /** The choices made on a run concern fields its evidence states. */
  ghost predicate Grounded(files: Files, o: Overrides)
  {
    forall f :: f in o ==> f.Relief? || f in MergeAll(Said(files.sources)).values
  }

  lemma SameFound(files: Files, o: Overrides)
    requires Tag !in o && Grounded(files, o)
    ensures Found(Vessel(files.sources, o).values) <==> Found(Vessel(files.sources, map[]).values)
  {
    FittingIsAll(files.sources, o);
    FittingIsAll(files.sources, map[]);
    var m := MergeAll(Said(files.sources));
    assert forall f: Field :: !f.Relief? ==> (f in Overridden(m, o).values <==> f in m.values);
    assert forall f: Field :: !f.Relief? ==> (f in Overridden(m, map[]).values <==> f in m.values);
  }

  lemma VesselWithoutTag(sources: seq<Source>, o: Overrides, f: Field)
    requires Tag !in o
    ensures f in Fields(Vessel(sources, o).disputes) <==> f in Fields(Vessel(sources, map[]).disputes) && f !in o
  {
    FittingIsAll(sources, o);
    FittingIsAll(sources, map[]);
    VesselDisputesIff(sources, o, f);
    VesselDisputesIff(sources, map[], f);
  }

  lemma ReliefWithoutTag(files: Files, o: Overrides, f: Field)
    requires WellRead(files) && High(f)
    ensures f in Fields(Overridden(MergeAll(files.tests), o).disputes + files.across(o)) <==>
              f in Fields(Overridden(MergeAll(files.tests), map[]).disputes + files.across(map[])) && f !in o
  {
    ReliefDisputes(files, o, f);
    ReliefDisputes(files, map[], f);
  }

  /** Until a tag is chosen, a choice settles its own conflict and no other. */
  lemma ReadWithoutTag(files: Files, formulas: Formulas, o: Overrides, f: Field)
    requires WellRead(files) && Tag !in o && Grounded(files, o)
    ensures Assess(files, formulas, o).Some? <==> Assess(files, formulas, map[]).Some?
    ensures High(f) && Assess(files, formulas, o).Some? ==>
              (f in Fields(Assess(files, formulas, o).value.disputes) <==> f in AtFirst(files, formulas) && f !in o)
  {
    SameFound(files, o);
    if High(f) {
      if Found(Vessel(files.sources, o).values) {
        VesselWithoutTag(files.sources, o, f);
      } else {
        ReliefWithoutTag(files, o, f);
      }
    }
  }

  /** A further choice, of anything but the tag, never makes a record unreadable. */
  lemma StaysReadable(files: Files, formulas: Formulas, o: Overrides, p: Overrides)
    requires Assess(files, formulas, o).Some? && o.Keys <= p.Keys
    requires Tag in o <==> Tag in p
    requires Tag in o ==> o[Tag].value == p[Tag].value
    ensures Assess(files, formulas, p).Some?
  {
    SameFit(files.sources, o, p);
    var m := MergeAll(Said(Fitting(files.sources, o)));
    assert forall f :: f in Overridden(m, o).values ==> f in Overridden(m, p).values;
  }

  lemma BlockedIff(disputes: seq<Dispute>)
    ensures Blocked(disputes) <==> exists f :: f in Fields(disputes) && High(f)
  {
    if i :| 0 <= i < |disputes| && High(disputes[i].field) {
      assert disputes[i] in disputes;
    }
  }

  // --- the invariant -------------------------------------------------------

  lemma KeptIsGrounded(files: Files, records: seq<Record>)
    requires WellKept(files, records)
    ensures Grounded(files, Chosen(records))
  {
    forall f | f in Chosen(records)
      ensures f.Relief? || f in MergeAll(Said(files.sources)).values
    {
      ChosenIs(records, f);
    }
  }

  /** Recording what has just been read again keeps the invariant. */
  lemma RecordingKeepsInv(files: Files, formulas: Formulas, records: seq<Record>)
    requires WellRead(files) && WellKept(files, records)
    requires Tag !in Chosen(records) ==>
               forall r :: r in records && IsInput(r) && High(r.field) ==> r.field in AtFirst(files, formulas)
    requires Assess(files, formulas, Chosen(records)).Some?
    ensures var a := Assess(files, formulas, Chosen(records)).value;
            && CaseInv(files, formulas, Case(Recorded(a.disputes, records), Some(a.status)))
            && Chosen(Recorded(a.disputes, records)) == Chosen(records)
  {
    var o := Chosen(records);
    var a := Assess(files, formulas, o).value;
    forall f | f in Fields(a.disputes)
      ensures !f.Other? && (f.Relief? || f in MergeAll(Said(files.sources)).values)
    {
      AssessedFields(files, formulas, o, f);
    }
    RecordedIs(files, a.disputes, records);
    if Tag !in o {
      KeptIsGrounded(files, records);
      forall f | f in Fields(a.disputes) && High(f)
        ensures f in AtFirst(files, formulas)
      {
        ReadWithoutTag(files, formulas, o, f);
      }
    }
  }

  lemma StageKeepsInv(files: Files, formulas: Formulas, records: seq<Record>, stated: Option<V.Status>)
    requires WellRead(files) && forall r :: r in records ==> !IsInput(r) && r.field.Other?
    ensures CaseInv(files, formulas, Stage(files, formulas, records, stated))
    ensures Chosen(Stage(files, formulas, records, stated).records) == map[]
  {
    forall f
      ensures f !in Chosen(records)
    {
      ChosenIs(records, f);
    }
    assert Chosen(records) == map[];
    assert WellKept(files, records);
    if Assess(files, formulas, map[]).Some? {
      RecordingKeepsInv(files, formulas, records);
    }
  }

  lemma NoteKeepsInv(files: Files, formulas: Formulas, c: Case, r: Record)
    requires CaseInv(files, formulas, c) && !IsInput(r) && r.field.Other?
    ensures CaseInv(files, formulas, c.(records := c.records + [r]))
  {
    ChosenOneMore(c.records, r);
    HasOneMore(c.records, r);
  }

  lemma SettlingKeepsRecords(files: Files, formulas: Formulas, c: Case, i: nat, bound: Bound)
    requires CaseInv(files, formulas, c) && i < |c.records| && c.records[i].conflict.status == V.Unresolved
    ensures var records := c.records[i := Settled(c.records[i], bound)];
            && WellKept(files, records)
            && (Tag !in Chosen(records) ==>
                  && Tag !in Chosen(c.records)
                  && forall r :: r in records && IsInput(r) && High(r.field) ==> r.field in AtFirst(files, formulas))
            && (IsInput(c.records[i]) ==> c.records[i].field !in Chosen(c.records))
  {
    var r := c.records[i];
    var records := c.records[i := Settled(r, bound)];
    assert records[i] == Settled(r, bound) && forall j :: 0 <= j < |records| && j != i ==> records[j] == c.records[j];
    ChosenIs(records, Tag);
    ChosenIs(c.records, Tag);
    ChosenIs(c.records, r.field);
  }

  /** Where the evidence can no longer be read the assessment stays conflicted. */
  lemma UnreadableStaysConflicted(files: Files, formulas: Formulas, c: Case, i: nat, bound: Bound)
    requires WellRead(files) && CaseInv(files, formulas, c) && i < |c.records| && c.records[i].conflict.status == V.Unresolved
    requires Assess(files, formulas, Chosen(c.records)).Some?
    requires Assess(files, formulas, Chosen(c.records[i := Settled(c.records[i], bound)])).None?
    ensures c.status == Some(V.Disputed)
  {
    var o, p := Chosen(c.records), Chosen(c.records[i := Settled(c.records[i], bound)]);
    forall f | f != c.records[i].field || !IsInput(c.records[i])
      ensures (f in o <==> f in p) && (f in o ==> o[f] == p[f])
    {
      ChosenElsewhere(c.records, i, Settled(c.records[i], bound), f);
    }
    SettlingKeepsRecords(files, formulas, c, i, bound);
    if !IsInput(c.records[i]) || c.records[i].field != Tag {
      StaysReadable(files, formulas, o, p);
    } else {
      KeptIsGrounded(files, c.records);
      assert c.records[i] in c.records;
      ReadWithoutTag(files, formulas, o, Tag);
      BlockedIff(Assess(files, formulas, o).value.disputes);
    }
  }

  lemma ResolveKeepsInv(files: Files, formulas: Formulas, c: Case, i: nat, bound: Bound)
    requires WellRead(files) && CaseInv(files, formulas, c) && i < |c.records| && c.records[i].conflict.status == V.Unresolved
    ensures CaseInv(files, formulas, Step(files, formulas, c, Resolve(i, bound)))
  {
    var records := c.records[i := Settled(c.records[i], bound)];
    SettlingKeepsRecords(files, formulas, c, i, bound);
    if Assess(files, formulas, Chosen(records)).Some? {
      RecordingKeepsInv(files, formulas, records);
    } else {
      if Assess(files, formulas, Chosen(c.records)).Some? {
        UnreadableStaysConflicted(files, formulas, c, i, bound);
      }
      assert forall r :: r in records && Open(r) ==> r in c.records;
    }
  }

  lemma StepKeepsInv(files: Files, formulas: Formulas, c: Case, m: Move)
    requires WellRead(files) && CaseInv(files, formulas, c)
    ensures CaseInv(files, formulas, Step(files, formulas, c, m))
  {
    match m
    case Note(r) =>
      if !IsInput(r) && r.field.Other? {
        NoteKeepsInv(files, formulas, c, r);
      }
    case Resolve(i, bound) =>
      if i < |c.records| && c.records[i].conflict.status == V.Unresolved {
        ResolveKeepsInv(files, formulas, c, i, bound);
      }
  }

  lemma {:induction false} RunKeepsInv(files: Files, formulas: Formulas, c: Case, moves: seq<Move>)
    requires WellRead(files) && CaseInv(files, formulas, c)
    ensures CaseInv(files, formulas, Run(files, formulas, c, moves))
    decreases |moves|
  {
    if moves != [] {
      RunKeepsInv(files, formulas, c, moves[..|moves| - 1]);
      StepKeepsInv(files, formulas, Run(files, formulas, c, moves[..|moves| - 1]), moves[|moves| - 1]);
    }
  }

  // --- an open conflict withholds ------------------------------------------

  ghost predicate AnyOpen(c: Case)
  {
    exists r :: r in c.records && Open(r)
  }

  /** What the evidence, read with every choice made so far, still disputes. */
  ghost predicate StillDisputed(files: Files, formulas: Formulas, c: Case, f: Field)
  {
    Assess(files, formulas, Chosen(c.records)).Some? &&
    f in Fields(Assess(files, formulas, Chosen(c.records)).value.disputes)
  }

  ghost predicate Orphaned(files: Files, formulas: Formulas, c: Case)
  {
    && Assess(files, formulas, Chosen(c.records)).Some?
    && forall r :: r in c.records && Open(r) ==> !StillDisputed(files, formulas, c, r.field)
  }

  /** The stage on a task without input conflicts, then any sequence of additions and resolutions. */
  ghost predicate Follows(files: Files, formulas: Formulas, records: seq<Record>, stated: Option<V.Status>, moves: seq<Move>, c: Case)
  {
    && WellRead(files) && stated != Some(V.Disputed)
    && (forall r :: r in records ==> !IsInput(r) && r.field.Other?)
    && c == Run(files, formulas, Stage(files, formulas, records, stated), moves)
  }

  lemma FollowingKeepsInv(
      files: Files, formulas: Formulas, records: seq<Record>, stated: Option<V.Status>, moves: seq<Move>, c: Case)
    requires Follows(files, formulas, records, stated, moves, c)
    ensures CaseInv(files, formulas, c)
  {
    StageKeepsInv(files, formulas, records, stated);
    RunKeepsInv(files, formulas, Stage(files, formulas, records, stated), moves);
  }

  lemma OpenIsNotChosen(files: Files, records: seq<Record>, r: Record)
    requires WellKept(files, records) && r in records && Open(r)
    ensures r.field !in Chosen(records) && High(r.field)
  {
    var i :| 0 <= i < |records| && records[i] == r;
    assert WellFormed(files, records[i]);
    ChosenIs(records, r.field);
  }

  /** As long as no tag has been chosen, an open high-impact conflict keeps the assessment conflicted, whatever else was resolved. */
  lemma OpenConflictWithholds(
      files: Files, formulas: Formulas, records: seq<Record>, stated: Option<V.Status>, moves: seq<Move>, c: Case, r: Record)
    requires Follows(files, formulas, records, stated, moves, c)
    requires r in c.records && Open(r) && Tag !in Chosen(c.records)
    ensures StillDisputed(files, formulas, c, r.field) && c.status == Some(V.Disputed)
  {
    FollowingKeepsInv(files, formulas, records, stated, moves, c);
    OpenIsNotChosen(files, c.records, r);
    KeptIsGrounded(files, c.records);
    ReadWithoutTag(files, formulas, Chosen(c.records), r.field);
    BlockedIff(Assess(files, formulas, Chosen(c.records)).value.disputes);
  }

  lemma ConflictedHasOpen(files: Files, formulas: Formulas, c: Case, f: Field)
    requires WellRead(files) && CaseInv(files, formulas, c) && StillDisputed(files, formulas, c, f) && High(f)
    ensures exists r :: r in c.records && Open(r) && r.field == f
  {
    assert Has(c.records, f);
    var i :| 0 <= i < |c.records| && c.records[i].field == f;
    AssessedFields(files, formulas, Chosen(c.records), f);
    assert WellFormed(files, c.records[i]);
    ChosenIs(c.records, f);
    assert Open(c.records[i]) && c.records[i] in c.records;
  }

  lemma OpenIsBlocking(files: Files, formulas: Formulas, c: Case, r: Record)
    requires CaseInv(files, formulas, c) && r in c.records && Open(r) && StillDisputed(files, formulas, c, r.field)
    ensures c.status == Some(V.Disputed)
  {
    OpenIsNotChosen(files, c.records, r);
    BlockedIff(Assess(files, formulas, Chosen(c.records)).value.disputes);
  }

  /** The assessment is conflicted exactly when an open high-impact conflict is still in dispute among the sources read. */
  lemma ConflictedIff(
      files: Files, formulas: Formulas, records: seq<Record>, stated: Option<V.Status>, moves: seq<Move>, c: Case)
    requires Follows(files, formulas, records, stated, moves, c)
    requires Assess(files, formulas, Chosen(c.records)).Some?
    ensures c.status == Some(V.Disputed) <==>
              exists r :: r in c.records && Open(r) && StillDisputed(files, formulas, c, r.field)
  {
    FollowingKeepsInv(files, formulas, records, stated, moves, c);
    if r :| r in c.records && Open(r) && StillDisputed(files, formulas, c, r.field) {
      OpenIsBlocking(files, formulas, c, r);
    } else {
      var disputes := Assess(files, formulas, Chosen(c.records)).value.disputes;
      BlockedIff(disputes);
      if f :| f in Fields(disputes) && High(f) {
        ConflictedHasOpen(files, formulas, c, f);
      }
    }
  }

  /**
   Over every run, an open high-impact conflict goes with an assessment that is not conflicted exactly when a
   tag has been chosen and what is open is no longer in dispute among the sources that are still read.
   */
  lemma OpenButNotConflictedIff(
      files: Files, formulas: Formulas, records: seq<Record>, stated: Option<V.Status>, moves: seq<Move>, c: Case)
    requires Follows(files, formulas, records, stated, moves, c) && AnyOpen(c)
    ensures c.status != Some(V.Disputed) <==> Tag in Chosen(c.records) && Orphaned(files, formulas, c)
  {
    FollowingKeepsInv(files, formulas, records, stated, moves, c);
    var r :| r in c.records && Open(r);
    if Tag !in Chosen(c.records) {
      OpenConflictWithholds(files, formulas, records, stated, moves, c, r);
    } else if Assess(files, formulas, Chosen(c.records)).Some? {
      ConflictedIff(files, formulas, records, stated, moves, c);
    }
  }

  /** Of a vessel, that is the case when no two sources of the chosen tag disagree about any of them. */
  lemma OrphanedVesselIff(
      files: Files, formulas: Formulas, records: seq<Record>, stated: Option<V.Status>, moves: seq<Move>, c: Case)
    requires Follows(files, formulas, records, stated, moves, c)
    requires Found(Vessel(files.sources, Chosen(c.records)).values)
    ensures Orphaned(files, formulas, c) <==>
              forall r :: r in c.records && Open(r) ==> !Disagree(Said(Fitting(files.sources, Chosen(c.records))), r.field)
  {
    FollowingKeepsInv(files, formulas, records, stated, moves, c);
    forall r | r in c.records && Open(r)
      ensures StillDisputed(files, formulas, c, r.field) <==> Disagree(Said(Fitting(files.sources, Chosen(c.records))), r.field)
    {
      OpenIsNotChosen(files, c.records, r);
      VesselDisputesIff(files.sources, Chosen(c.records), r.field);
    }
  }

  // --- what the report makes of it -----------------------------------------

  function Conflicts(records: seq<Record>): seq<V.Conflict>
  {
    if records == [] then [] else Conflicts(records[..|records| - 1]) + [records[|records| - 1].conflict]
  }

  lemma {:induction false} ConflictsIn(records: seq<Record>, r: Record)
    requires r in records
    ensures r.conflict in Conflicts(records)
  {
    if r != records[|records| - 1] {
      ConflictsIn(records[..|records| - 1], r);
    }
  }

  /**
   While a high-impact conflict is open, no answer with a material claim that states a conclusion is reported
   valid: by the engineering check whatever the kind of the claim, and where a chosen tag has left the open
   conflicts behind, by the claim itself if its kind depends on the inputs.
   */
  lemma OpenConflictInvalidatesTheReport(
      files: Files, formulas: Formulas, records: seq<Record>, stated: Option<V.Status>, moves: seq<Move>, c: Case,
      p: V.Patterns, a: V.Assessment, passages: V.Passages, text: string,
      others: seq<V.Check>, supported: nat, threshold: real, limitations: seq<string>, claim: string)
    requires Follows(files, formulas, records, stated, moves, c) && AnyOpen(c) && c.status == Some(a.status)
    requires claim in p.material(text) && p.conclusions(claim) != [] && p.conclusions(text) != []
    requires Tag !in Chosen(c.records) || !Orphaned(files, formulas, c) || V.DependsOnInputs(V.KindOf(p, claim))
    ensures var verdicts := V.VerdictsOn(p, Some(a), Conflicts(c.records), passages, p.material(text));
            !V.Compiled(V.RunChecks(p, Some(a), verdicts, text, others), |verdicts|, supported, threshold, limitations).valid
  {
    OpenButNotConflictedIff(files, formulas, records, stated, moves, c);
    var verdicts := V.VerdictsOn(p, Some(a), Conflicts(c.records), passages, p.material(text));
    if a.status == V.Disputed {
      V.DisputedAssessmentInvalidatesTheReport(p, a, verdicts, text, others, |verdicts|, supported, threshold, limitations);
    } else {
      var r :| r in c.records && Open(r);
      ConflictsIn(c.records, r);
      V.DisputedConclusionInvalidatesTheReport(
        p, Some(a), Conflicts(c.records), passages, text, others, supported, threshold, limitations, claim, r.conflict);
    }
  }

  // --- two vessels in one upload -------------------------------------------

  /** A record of one vessel: its minimum thickness, its tag, and one location with two readings. */
  predicate Describes(r: Source, tag: Bound, tMin: Bound)
  {
    |r| == 4 && r[0] == Statement(Scalar("t_min"), tMin) && r[1] == Statement(Tag, tag) &&
    r[2].field.Reading? && r[3].field.Reading? && r[2].field != r[3].field
  }

  function NothingAcross(o: Overrides): seq<Dispute>
  {
    []
  }

  function Upload(one: Source, two: Source): Files
  {
    Files([one, two], None, [], NothingAcross)
  }

  lemma SaidByTwo(one: Source, two: Source)
    ensures Said([one]) == one && Said([one, two]) == one + two
  {
    SaidOneMore([], one);
    SaidOneMore([one], two);
    assert [] + [one] == [one] && [one] + [two] == [one, two] && [] + one == one;
  }

  lemma StatedIsFound(said: seq<Statement>, o: Overrides, i: nat, j: nat)
    requires i < |said| && said[i].field == Scalar("t_min") && j < |said| && said[j].field.Reading?
    ensures Found(Overridden(MergeAll(said), o).values)
  {
    MergedIs(said, Scalar("t_min"));
    MergedIs(said, said[j].field);
    assert said[j].field in Overridden(MergeAll(said), o).values;
  }

  lemma TwoRecordsDisagree(one: Source, two: Source, tag: Bound, tMin: Bound, tag': Bound, tMin': Bound)
    requires Describes(one, tag, tMin) && Describes(two, tag', tMin')
    requires tag.value != tag'.value && tMin.value != tMin'.value
    ensures Found(Vessel([one, two], map[]).values)
    ensures Tag in Fields(Vessel([one, two], map[]).disputes) && Scalar("t_min") in Fields(Vessel([one, two], map[]).disputes)
  {
    FittingIsAll([one, two], map[]);
    SaidByTwo(one, two);
    var said := one + two;
    StatedIsFound(said, map[], 0, 2);
    VesselDisputesIff([one, two], map[], Tag);
    VesselDisputesIff([one, two], map[], Scalar("t_min"));
    assert said[0] == one[0] && said[4] == two[0] && said[1] == one[1] && said[5] == two[1];
    assert Disagree(said, Tag) && Disagree(said, Scalar("t_min"));
  }

  lemma TagOfRecord(r: Source, tag: Bound, tMin: Bound)
    requires Describes(r, tag, tMin)
    ensures TagOf(r) == Some(tag.value)
  {
    assert r[1..][0] == r[1];
  }

  lemma FittingOne(one: Source, two: Source, o: Overrides)
    requires Fits(one, o) && !Fits(two, o)
    ensures Fitting([one, two], o) == [one]
  {
    assert [one, two][..1] == [one] && [one][..0] == [];
    assert Fitting([], o) == [] && Fitting([one], o) == [one];
  }

  /** Once the tag is chosen the other record is left out. */
  lemma OneRecordIsLeft(one: Source, two: Source, tag: Bound, tMin: Bound, tag': Bound, tMin': Bound, o: Overrides)
    requires Describes(one, tag, tMin) && Describes(two, tag', tMin')
    requires tag.value != tag'.value && Tag in o && o[Tag].value == tag.value
    ensures Fitting([one, two], o) == [one]
    ensures Found(Vessel([one, two], o).values)
    ensures forall f :: !Disagree(one, f)
  {
    TagOfRecord(one, tag, tMin);
    TagOfRecord(two, tag', tMin');
    FittingOne(one, two, o);
    SaidByTwo(one, two);
    StatedIsFound(one, o, 0, 2);
  }

  lemma {:induction false} ChosenLast(records: seq<Record>, i: nat)
    requires i < |records| && IsInput(records[i]) && records[i].chosen.Some?
    requires forall j :: i < j < |records| && IsInput(records[j]) ==> records[j].field != records[i].field
    ensures records[i].field in Chosen(records) && Chosen(records)[records[i].field] == records[i].chosen.value
  {
    if i < |records| - 1 {
      ChosenLast(records[..|records| - 1], i);
    }
  }

  /** Resolving an open conflict whose choice leaves the evidence readable: the choice is in force, the rest as before. */
  lemma Resolving(files: Files, formulas: Formulas, c: Case, i: nat, bound: Bound)
    requires WellRead(files) && CaseInv(files, formulas, c) && i < |c.records| && Open(c.records[i])
    ensures var o := Chosen(c.records[i := Settled(c.records[i], bound)]);
            && c.records[i].field in o && o[c.records[i].field] == bound
            && (forall f :: f in Chosen(c.records) ==> f in o && o[f] == Chosen(c.records)[f])
            && (Assess(files, formulas, o).Some? ==> Chosen(Step(files, formulas, c, Resolve(i, bound)).records) == o)
  {
    var records := c.records[i := Settled(c.records[i], bound)];
    SettlingKeepsRecords(files, formulas, c, i, bound);
    ChosenLast(records, i);
    forall f | f in Chosen(c.records)
      ensures f in Chosen(records) && Chosen(records)[f] == Chosen(c.records)[f]
    {
      ChosenElsewhere(c.records, i, Settled(c.records[i], bound), f);
    }
    if Assess(files, formulas, Chosen(records)).Some? {
      RecordingKeepsInv(files, formulas, records);
    }
  }

  lemma OpenRecordOn(files: Files, formulas: Formulas, c: Case, f: Field) returns (i: nat)
    requires WellRead(files) && CaseInv(files, formulas, c) && StillDisputed(files, formulas, c, f) && High(f)
    ensures i < |c.records| && c.records[i].field == f && Open(c.records[i])
  {
    ConflictedHasOpen(files, formulas, c, f);
    var r :| r in c.records && Open(r) && r.field == f;
    i :| 0 <= i < |c.records| && c.records[i] == r;
  }

  lemma UploadIsRead(files: Files, one: Source, two: Source)
    requires files == Upload(one, two)
    requires forall s :: s in one || s in two ==> !s.field.Relief? && !s.field.Other?
    ensures WellRead(files)
  {
    SaidByTwo(one, two);
  }

  lemma NothingIsDisputed(one: Source, two: Source, formulas: Formulas, o: Overrides)
    requires Fitting([one, two], o) == [one] && Found(Vessel([one, two], o).values) && forall f :: !Disagree(one, f)
    ensures Assess(Upload(one, two), formulas, o).Some?
    ensures Assess(Upload(one, two), formulas, o).value.disputes == []
    ensures Assess(Upload(one, two), formulas, o).value.status != V.Disputed
  {
    SaidByTwo(one, two);
    var disputes := Vessel([one, two], o).disputes;
    if disputes != [] {
      assert disputes[0].field in Fields(disputes);
      VesselDisputesIff([one, two], o, disputes[0].field);
    }
  }

  /** Resolving a conflict while the tag of one record is chosen: the assessment goes on from that record. */
  lemma ResolvingOnOne(one: Source, two: Source, formulas: Formulas, c: Case, i: nat, bound: Bound)
    requires WellRead(Upload(one, two)) && CaseInv(Upload(one, two), formulas, c) && i < |c.records| && Open(c.records[i])
    requires var o := Chosen(c.records[i := Settled(c.records[i], bound)]);
             Fitting([one, two], o) == [one] && Found(Vessel([one, two], o).values) && forall f :: !Disagree(one, f)
    ensures var next := Step(Upload(one, two), formulas, c, Resolve(i, bound));
            next.records == c.records[i := Settled(c.records[i], bound)] && next.status != Some(V.Disputed)
  {
    NothingIsDisputed(one, two, formulas, Chosen(c.records[i := Settled(c.records[i], bound)]));
  }

  lemma StageOfUpload(one: Source, two: Source, tag: Bound, tMin: Bound, tag': Bound, tMin': Bound, formulas: Formulas)
      returns (c: Case, k: nat, i: nat)
    requires Describes(one, tag, tMin) && Describes(two, tag', tMin')
    requires tag.value != tag'.value && tMin.value != tMin'.value
    ensures WellRead(Upload(one, two)) && c == Stage(Upload(one, two), formulas, [], None) && CaseInv(Upload(one, two), formulas, c)
    ensures k < |c.records| && c.records[k].field == Tag && Open(c.records[k])
    ensures i < |c.records| && c.records[i].field == Scalar("t_min") && Open(c.records[i])
  {
    var files := Upload(one, two);
    UploadIsRead(files, one, two);
    TwoRecordsDisagree(one, two, tag, tMin, tag', tMin');
    c := Stage(files, formulas, [], None);
    StageKeepsInv(files, formulas, [], None);
    k := OpenRecordOn(files, formulas, c, Tag);
    i := OpenRecordOn(files, formulas, c, Scalar("t_min"));
  }

  /**
   Two records of different vessels with different minimum thicknesses. Choosing the tag of one leaves the conflict
   over t-min open, although no source still read disputes it, and the assessment goes on from the one record.
   */
  lemma ChosenTagLeavesAConflictOpen(
      formulas: Formulas, one: Source, two: Source, tag: Bound, tMin: Bound, tag': Bound, tMin': Bound, choice: Bound)
      returns (moves: seq<Move>, c: Case, i: nat)
    requires Describes(one, tag, tMin) && Describes(two, tag', tMin')
    requires tag.value != tag'.value && tMin.value != tMin'.value && choice.value == tag.value
    ensures Follows(Upload(one, two), formulas, [], None, moves, c)
    ensures i < |c.records| && Open(c.records[i]) && c.records[i].field == Scalar("t_min")
    ensures Tag in Chosen(c.records) && Chosen(c.records)[Tag] == choice && c.status != Some(V.Disputed)
  {
    var first, k, j := StageOfUpload(one, two, tag, tMin, tag', tMin', formulas);
    i := j;
    Resolving(Upload(one, two), formulas, first, k, choice);
    OneRecordIsLeft(one, two, tag, tMin, tag', tMin', Chosen(first.records[k := Settled(first.records[k], choice)]));
    ResolvingOnOne(one, two, formulas, first, k, choice);
    moves, c := [Resolve(k, choice)], Step(Upload(one, two), formulas, first, Resolve(k, choice));
    OneMoreMove(Upload(one, two), formulas, first, [], Resolve(k, choice));
    assert [] + moves == moves;
  }

  lemma OneMoreMove(files: Files, formulas: Formulas, c: Case, moves: seq<Move>, m: Move)
    ensures Run(files, formulas, c, moves + [m]) == Step(files, formulas, Run(files, formulas, c, moves), m)
  {
    assert (moves + [m])[..|moves|] == moves;
  }

  lemma ValueInForce(sources: seq<Source>, o: Overrides)
    requires Scalar("t_min") in o
    ensures Scalar("t_min") in Vessel(sources, o).values && Vessel(sources, o).values[Scalar("t_min")] == o[Scalar("t_min")]
  {
  }

  /** And the conflict left open may then be closed by a value that no source still read states: it is the one used. */
  lemma RuledOutValueMayBeUsed(
      formulas: Formulas, one: Source, two: Source, tag: Bound, tMin: Bound, tag': Bound, tMin': Bound, choice: Bound, other: Bound)
      returns (moves: seq<Move>, c: Case)
    requires Describes(one, tag, tMin) && Describes(two, tag', tMin')
    requires tag.value != tag'.value && tMin.value != tMin'.value && choice.value == tag.value && other.value == tMin'.value
    ensures Follows(Upload(one, two), formulas, [], None, moves, c) && c.status != Some(V.Disputed)
    ensures Fitting([one, two], Chosen(c.records)) == [one]
    ensures var used := Vessel([one, two], Chosen(c.records)).values;
            Scalar("t_min") in used && used[Scalar("t_min")] == other
  {
    var files := Upload(one, two);
    var before, open, i := ChosenTagLeavesAConflictOpen(formulas, one, two, tag, tMin, tag', tMin', choice);
    FollowingKeepsInv(files, formulas, [], None, before, open);
    Resolving(files, formulas, open, i, other);
    var o := Chosen(open.records[i := Settled(open.records[i], other)]);
    OneRecordIsLeft(one, two, tag, tMin, tag', tMin', o);
    ResolvingOnOne(one, two, formulas, open, i, other);
    ValueInForce([one, two], o);
    moves, c := before + [Resolve(i, other)], Step(files, formulas, open, Resolve(i, other));
    OneMoreMove(files, formulas, Stage(files, formulas, [], None), before, Resolve(i, other));
  }

  // --- the extraction's and the stage's loops ------------------------------

  lemma {:induction false} DisputingAt(disputes: seq<Dispute>, k: nat, f: Field, mine: Bound, theirs: Bound)
    requires k <= |disputes| && forall j :: 0 <= j < k ==> disputes[j].field != f
    ensures Disputing(disputes, f, mine, theirs) == disputes[..k] + Disputing(disputes[k..], f, mine, theirs)
  {
    if k > 0 {
      DisputingAt(disputes[1..], k - 1, f, mine, theirs);
      assert disputes[..k] == [disputes[0]] + disputes[1..][..k - 1] && disputes[1..][k - 1..] == disputes[k..];
    } else {
      assert disputes[0..] == disputes;
    }
  }

  lemma {:induction false} WithoutOneMore(disputes: seq<Dispute>, d: Dispute, settled: set<Field>)
    ensures Without(disputes + [d], settled) == Without(disputes, settled) + if d.field in settled then [] else [d]
  {
    if disputes == [] {
      assert [] + [d] == [d];
    } else {
      WithoutOneMore(disputes[1..], d, settled);
      assert (disputes + [d])[1..] == disputes[1..] + [d];
    }
  }

  lemma {:induction false} WithoutMore(disputes: seq<Dispute>, settled: set<Field>, f: Field)
    ensures Without(Without(disputes, settled), {f}) == Without(disputes, settled + {f})
  {
    if disputes != [] {
      var d, rest := disputes[0], disputes[1..];
      WithoutMore(rest, settled, f);
      if d.field !in settled {
        assert ([d] + Without(rest, settled))[1..] == Without(rest, settled);
      } else {
        assert [] + Without(rest, settled) == Without(rest, settled);
      }
    }
  }

  lemma {:induction false} WithoutNone(disputes: seq<Dispute>)
    ensures Without(disputes, {}) == disputes
  {
    if disputes != [] {
      WithoutNone(disputes[1..]);
    }
  }

  lemma OverridingOneMore(m: Merged, o: Overrides, f: Field, bound: Bound)
    requires f !in o
    ensures OverrideOne(Overridden(m, o), f, bound) == Overridden(m, o[f := bound])
  {
    WithoutMore(m.disputes, o.Keys, f);
    assert o[f := bound].Keys == o.Keys + {f};
    var one, all := OverrideOne(Overridden(m, o), f, bound).values, Overridden(m, o[f := bound]).values;
    assert one.Keys == all.Keys;
  }

  lemma MergeOneMore(said: seq<Statement>, s: Statement)
    ensures MergeAll(said + [s]) == MergeOne(MergeAll(said), s)
  {
    assert (said + [s])[..|said|] == said;
  }

  lemma OverriddenNone(m: Merged)
    ensures Overridden(m, map[]) == m
  {
    WithoutNone(m.disputes);
    var none: Overrides := map[];
    assert m.values.Keys + none.Keys == m.values.Keys && none.Keys == {};
    assert Overridden(m, none).values == m.values;
  }

  function Only(o: Overrides, fields: set<Field>): Overrides
  {
    map f | f in fields && f in o :: o[f]
  }

  lemma OnlyOneMore(o: Overrides, fields: set<Field>, f: Field)
    requires f in o && f !in fields
    ensures f !in Only(o, fields) && Only(o, fields + {f}) == Only(o, fields)[f := o[f]]
  {
  }

  lemma FittingOneMore(sources: seq<Source>, last: Source, o: Overrides)
    ensures Said(Fitting(sources + [last], o)) == if Fits(last, o) then Said(Fitting(sources, o)) + last else Said(Fitting(sources, o))
  {
    assert (sources + [last])[..|sources|] == sources;
    if Fits(last, o) {
      SaidOneMore(Fitting(sources, o), last);
    } else {
      assert Fitting(sources, o) + [] == Fitting(sources, o);
    }
  }

  class VesselInputs {
    var values: map<Field, Bound>
    var disputes: seq<Dispute>

    ghost function Contents(): Merged
      reads this
    {
      Merged(values, disputes)
    }

    constructor ()
      ensures Contents() == MergeAll([])
    {
      values, disputes := map[], [];
    }

    /** `_dispute`. */
    method Contradict(f: Field, mine: Bound, theirs: Bound)
      modifies this`disputes
      ensures disputes == Disputing(old(disputes), f, mine, theirs)
    {
      for k := 0 to |disputes|
        invariant disputes == old(disputes)
        invariant forall j :: 0 <= j < k ==> disputes[j].field != f
      {
        if disputes[k].field == f {
          DisputingAt(disputes, k, f, mine, theirs);
          var d := disputes[k];
          if !exists v :: v in d.values && v.value == theirs.value {
            disputes := disputes[k := d.(values := d.values + [theirs])];
          }
          return;
        }
      }
      DisputingAt(disputes, |disputes|, f, mine, theirs);
      disputes := disputes + [Dispute(f, [mine, theirs])];
    }

    /** `merge`, after what has been merged so far. */
    method Merge(ghost said: seq<Statement>, other: Source)
      requires Contents() == MergeAll(said)
      modifies this
      ensures Contents() == MergeAll(said + other)
    {
      assert said + other[..0] == said;
      for k := 0 to |other|
        invariant Contents() == MergeAll(said + other[..k])
      {
        MergeOneMore(said + other[..k], other[k]);
        assert said + other[..k + 1] == said + other[..k] + [other[k]];
        var f, theirs := other[k].field, other[k].bound;
        if f !in values {
          values := values[f := theirs];
        } else if values[f].value != theirs.value {
          Contradict(f, values[f], theirs);
        }
      }
      assert other[..|other|] == other;
    }

    /** `override`. */
    method Override(f: Field, bound: Bound)
      modifies this
      ensures Contents() == OverrideOne(old(Contents()), f, bound)
    {
      if !f.Reading? || f in values {
        values := values[f := bound];
      }
      var kept: seq<Dispute> := [];
      for k := 0 to |disputes|
        invariant disputes == old(disputes) && values == OverrideOne(old(Contents()), f, bound).values
        invariant kept == Without(disputes[..k], {f})
      {
        WithoutOneMore(disputes[..k], disputes[k], {f});
        assert disputes[..k + 1] == disputes[..k] + [disputes[k]];
        if disputes[k].field != f {
          kept := kept + [disputes[k]];
        }
      }
      assert disputes[..|disputes|] == disputes;
      disputes := kept;
    }

    /** Every choice put in force; no order of them matters. */
    method OverrideAll(o: Overrides)
      modifies this
      ensures Contents() == Overridden(old(Contents()), o)
    {
      ghost var m := Contents();
      OverriddenNone(m);
      assert Only(o, {}) == map[];
      var rest := o.Keys;
      ghost var done: set<Field> := {};
      while rest != {}
        invariant done + rest == o.Keys && done !! rest
        invariant Contents() == Overridden(m, Only(o, done))
        decreases rest
      {
        var f :| f in rest;
        OnlyOneMore(o, done, f);
        OverridingOneMore(m, Only(o, done), f, o[f]);
        Override(f, o[f]);
        done, rest := done + {f}, rest - {f};
      }
      assert Only(o, done) == o;
    }
  }

  /** `vessel_inputs`: sources of another tag than the chosen one are left out, then every choice is put in force, in any order. */
  method ReadVessel(sources: seq<Source>, o: Overrides) returns (read: Merged)
    ensures read == Vessel(sources, o)
  {
    var inputs := new VesselInputs();
    for k := 0 to |sources|
      invariant fresh(inputs) && inputs.Contents() == MergeAll(Said(Fitting(sources[..k], o)))
    {
      ghost var said := Said(Fitting(sources[..k], o));
      FittingOneMore(sources[..k], sources[k], o);
      assert sources[..k + 1] == sources[..k] + [sources[k]];
      if Fits(sources[k], o) {
        inputs.Merge(said, sources[k]);
      }
    }
    assert sources[..|sources|] == sources;
    inputs.OverrideAll(o);
    read := Merged(inputs.values, inputs.disputes);
  }

  /** `conflict_records`. */
  method ConflictRecords(disputes: seq<Dispute>, existing: seq<Record>) returns (records: seq<Record>)
    ensures records == Recorded(disputes, existing)
  {
    records := existing;
    for k := 0 to |disputes|
      invariant Recorded(disputes[k..], records) == Recorded(disputes, existing)
    {
      assert disputes[k..][0] == disputes[k] && disputes[k..][1..] == disputes[k + 1..];
      if !Has(records, disputes[k].field) {
        records := records + [RecordOf(disputes[k])];
      }
    }
  }
}
